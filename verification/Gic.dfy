/** The interrupt controller: register writes, device lines and the logic that fills the queues (gic). */
module Gic {
  import opened GicQueues

  predicate Bit(v: nat, i: nat) { if i == 0 then v % 2 == 1 else Bit(v / 2, i - 1) }

  ghost function Power(i: nat): nat { if i == 0 then 1 else 2 * Power(i - 1) }

  // The number that the lowest n bits stand for.
  ghost function Sum(v: nat, n: nat): nat { if n == 0 then 0 else Sum(v, n - 1) + if Bit(v, n - 1) then Power(n - 1) else 0 }

  // A number is the sum of the powers of two at its bits.
  lemma {:induction false} BitsMean(v: nat, n: nat)
    ensures v < Power(n) ==> Sum(v, n) == v
  {
    if n > 0 {
      SumShift(v, n - 1);
      BitsMean(v / 2, n - 1);
    }
  }

  lemma {:induction false} SumShift(v: nat, n: nat)
    ensures Sum(v, n + 1) == v % 2 + 2 * Sum(v / 2, n)
  {
    if n > 0 { SumShift(v, n - 1); }
  }

  const Listable: set<nat> := {0, 1, 2, 3, 4, 5, 6, 7}

  // CPUs named by an eight-bit target list.
  function TargetSet(list: nat): (cs: set<nat>) { set c | c in Listable && Bit(list, c) }

  // The target list of a software interrupt request: its own list, all but the writer, the writer
  // only; the reserved filter stands for everyone.
  function SgiTargets(cpu: nat, value: nat): (cs: set<nat>) {
    var policy := value / 0x100_0000 % 4;
    if policy == 0 then TargetSet(value / 0x1_0000 % 256)
    else if policy == 1 then Listable - {cpu}
    else if policy == 2 then Listable * {cpu}
    else Listable
  }

  // The CPUs that a software interrupt request reaches, by its filter: 0 the CPUs of the list, 1 all
  // but the writer, 2 the writer, 3 (reserved) all.
  predicate Reaches(cpu: nat, value: nat, c: nat) {
    var filter := value / 0x100_0000 % 4;
    c < 8 &&
    (filter == 0 ==> Bit(value / 0x1_0000 % 256, c)) && (filter == 1 ==> c != cpu) && (filter == 2 ==> c == cpu)
  }

  lemma SgiReaches(cpu: nat, value: nat, c: nat)
    ensures c in SgiTargets(cpu, value) <==> Reaches(cpu, value, c)
  {
    hide Bit;
    assert c in Listable <==> c < 8;
  }

  // The position looked at in round j: (roundRobin + 1 + j) modulo n.
  ghost function Position(roundRobin: nat, n: nat, j: nat): int {
    if roundRobin + 1 + j < n then roundRobin + 1 + j else roundRobin + 1 + j - n
  }

  lemma StepRound(p: nat, n: nat)
    requires p < n
    ensures (p + 1) % n == if p + 1 < n then p + 1 else 0
  {
    if p + 1 == n { assert n % n == 0; }
  }

  ghost predicate IsOrder(order: seq<nat>) {
    && (forall i, j :: 0 <= i < j < |order| ==> order[i] != order[j])
    && (forall i :: 0 <= i < |order| ==> order[i] < |order|)
    && (forall c: nat :: c < |order| ==> c in order)
  }

  // The CPUs looked at in the first `rounds` rounds.
  ghost predicate Seen(order: seq<nat>, roundRobin: nat, rounds: nat, c: nat)
    requires roundRobin < |order| && rounds <= |order|
  {
    exists j :: 0 <= j < rounds && order[Position(roundRobin, |order|, j)] == c
  }

  lemma SeenNext(order: seq<nat>, roundRobin: nat, rounds: nat, c: nat)
    requires IsOrder(order) && roundRobin < |order| && rounds < |order|
    ensures var now := order[Position(roundRobin, |order|, rounds)];
      && !Seen(order, roundRobin, rounds, now)
      && (Seen(order, roundRobin, rounds + 1, c) <==> Seen(order, roundRobin, rounds, c) || c == now)
  {
    var now := order[Position(roundRobin, |order|, rounds)];
    forall j | 0 <= j < rounds ensures order[Position(roundRobin, |order|, j)] != now {
      assert Position(roundRobin, |order|, j) != Position(roundRobin, |order|, rounds);
    }
    if c == now { assert order[Position(roundRobin, |order|, rounds)] == c; }
  }

  lemma AllSeen(order: seq<nat>, roundRobin: nat, c: nat)
    requires IsOrder(order) && roundRobin < |order| && c < |order|
    ensures Seen(order, roundRobin, |order|, c)
  {
    assert c in order;
    var p :| 0 <= p < |order| && order[p] == c;
    var j := if p > roundRobin then p - roundRobin - 1 else p + |order| - roundRobin - 1;
    assert Position(roundRobin, |order|, j) == p;
  }

  ghost predicate AllOk(cpus: seq<Cpu>) { forall c :: 0 <= c < |cpus| ==> CpuOk(cpus[c]) }

  // The logic has run for every CPU.
  ghost predicate AllCombined(d: Distributor, before: seq<Cpu>, after: seq<Cpu>) {
    && DistributorOk(d) && |before| == |after|
    && forall c :: 0 <= c < |after| ==> after[c] == Combined(d, before[c], c)
  }

  ghost predicate AllServed(d: Distributor, before: seq<Cpu>, after: seq<Cpu>) {
    && DistributorOk(d) && |before| == |after|
    && forall c :: 0 <= c < |after| ==> Served(d, before[c], after[c], c)
  }

  lemma CombinedServesAll(d: Distributor, before: seq<Cpu>, after: seq<Cpu>)
    requires AllCombined(d, before, after)
    ensures AllServed(d, before, after)
  {
    hide Served, Combined;
    forall c | 0 <= c < |after| ensures Served(d, before[c], after[c], c) { CombinedServes(d, before[c], c); }
  }

  lemma CombinedKeepsSettings(d: Distributor, before: seq<Cpu>, after: seq<Cpu>)
    requires AllCombined(d, before, after)
    ensures |after| == |before| && forall c :: 0 <= c < |after| ==>
      after[c].takes == before[c].takes && after[c].split == before[c].split && after[c].mask == before[c].mask
  {
    hide Scan;
  }

  lemma AllCombinedOk(d: Distributor, before: seq<Cpu>, after: seq<Cpu>)
    requires AllCombined(d, before, after) && AllOk(before)
    ensures AllOk(after) && forall c :: 0 <= c < |after| ==> before[c].queue <= after[c].queue
  {
    forall c | 0 <= c < |after| ensures CpuOk(after[c]) && before[c].queue <= after[c].queue { CombinedOk(d, before[c], c); }
  }

  // Per CPU: everything that was ever queued is what was served, then what is queued now.
  ghost predicate History(queued: seq<seq<nat>>, served: seq<seq<nat>>, cpus: seq<Cpu>) {
    && |queued| == |served| == |cpus|
    && forall c :: 0 <= c < |cpus| ==> queued[c] == served[c] + cpus[c].queue
  }

  // Histories grow at their ends.
  ghost predicate Grew(before: seq<seq<nat>>, after: seq<seq<nat>>) {
    |before| == |after| && forall c :: 0 <= c < |after| ==> before[c] <= after[c]
  }

  ghost predicate SameQueues(before: seq<Cpu>, after: seq<Cpu>) {
    |before| == |after| && forall c :: 0 <= c < |after| ==> after[c].queue == before[c].queue
  }

  lemma HistoryLengths(queued: seq<seq<nat>>, served: seq<seq<nat>>, cpus: seq<Cpu>)
    requires History(queued, served, cpus)
    ensures |queued| == |served| == |cpus|
  {
  }

  lemma HistoryKept(queued: seq<seq<nat>>, served: seq<seq<nat>>, before: seq<Cpu>, after: seq<Cpu>)
    requires History(queued, served, before) && SameQueues(before, after)
    ensures History(queued, served, after)
  {
  }

  ghost function Queued(served: seq<seq<nat>>, cpus: seq<Cpu>): (queued: seq<seq<nat>>)
    requires |served| == |cpus|
  {
    seq(|cpus|, c requires 0 <= c < |cpus| => served[c] + cpus[c].queue)
  }

  lemma HistoryGrows(queued: seq<seq<nat>>, served: seq<seq<nat>>, before: seq<Cpu>, after: seq<Cpu>)
    requires History(queued, served, before) && |after| == |before|
    requires forall c :: 0 <= c < |after| ==> before[c].queue <= after[c].queue
    ensures History(Queued(served, after), served, after) && Grew(queued, Queued(served, after))
  {
    forall c | 0 <= c < |after| ensures queued[c] <= Queued(served, after)[c] {
      assert before[c].queue <= after[c].queue;
    }
  }

  // The head of one queue is served.
  ghost function ServedHead(served: seq<seq<nat>>, cpu: nat, c: Cpu, deactivate: bool): (r: seq<seq<nat>>)
    requires cpu < |served|
  {
    if Ends(c, deactivate) && c.queue != [] then served[cpu := served[cpu] + [c.queue[0]]] else served
  }

  lemma HistoryEnds(queued: seq<seq<nat>>, served: seq<seq<nat>>, cpus: seq<Cpu>, cpu: nat, deactivate: bool, value: nat)
    requires History(queued, served, cpus) && cpu < |cpus| && Ended(cpus[cpu], deactivate, value).Some?
    ensures History(queued, ServedHead(served, cpu, cpus[cpu], deactivate), cpus[cpu := Ended(cpus[cpu], deactivate, value).value])
  {
    var e := Ended(cpus[cpu], deactivate, value).value;
    var q := cpus[cpu].queue;
    if Ends(cpus[cpu], deactivate) {
      assert served[cpu] + q == served[cpu] + [q[0]] + q[1..];
    }
  }

  class InterruptController {
    const order: seq<nat>      // ids of the connected CPUs
    var dist: Distributor
    var cpus: seq<Cpu>
    var roundRobin: nat
    ghost var queued: seq<seq<nat>>   // per CPU, everything ever queued
    ghost var served: seq<seq<nat>>   // per CPU, everything ended

    ghost predicate Valid() reads this {
      && IsOrder(order) && |cpus| == |order| && roundRobin < |order| && DistributorOk(dist) && AllOk(cpus)
      && History(queued, served, cpus)
    }

    // All interfaces start disabled, with nothing pending.
    constructor (order: seq<nat>)
      requires IsOrder(order) && order != []
      ensures Valid() && this.order == order && forall c :: 0 <= c < |cpus| ==> cpus[c].queue == [] && served[c] == []
    {
      this.order := order;
      dist := Distributor(false, seq(Interrupts, _ => 0), seq(Interrupts, _ => {}));
      cpus := seq(|order|, _ => Cpu(false, false, 0, {}, map[], map[], [], 0, false));
      roundRobin := 0;
      queued, served := seq(|order|, _ => []), seq(|order|, _ => []);
    }

    // One CPU: signallable interrupts join its queue, and the head is shown to it.
    method CombineCpu(id: nat)
      requires id < |cpus| && DistributorOk(dist)
      modifies this`cpus
      ensures cpus == old(cpus)[id := Combined(dist, old(cpus[id]), id)]
    {
      hide Eligible, AckValue;
      var c := cpus[id];
      if !dist.enabled || !c.takes {
        cpus := cpus[id := c.(line := false)];
        return;
      }
      var queue := c.queue;
      var t := 0;
      while t < Interrupts
        invariant t <= Interrupts && queue == Scan(dist, c, id, t)
      {
        if Eligible(dist, c, id, t) {
          var v := AckValue(c, t);
          if v !in queue { queue := queue + [v]; }
        }
        t := t + 1;
      }
      var interrupt := queue != [];
      cpus := cpus[id := c.(queue := queue, ack := if interrupt then queue[0] else c.ack, line := interrupt)];
    }

    method CombLogic()
      requires IsOrder(order) && |cpus| == |order| && roundRobin < |order| && DistributorOk(dist)
      modifies this`cpus
      ensures AllCombined(dist, old(cpus), cpus) && AllServed(dist, old(cpus), cpus)
    {
      hide Served, Seen, IsOrder, Combined, Position, Previous, DistributorOk;
      ghost var n := |order|;
      var iter := roundRobin;
      NoneSeen(order, roundRobin);
      FirstPosition(roundRobin, |order|);
      var i := 0;
      while i < |order|
        invariant i <= n && |cpus| == n && iter < n && iter == Previous(roundRobin, n, i)
        invariant forall c :: 0 <= c < n ==> cpus[c] == if Seen(order, roundRobin, i, c) then Combined(dist, old(cpus)[c], c) else old(cpus)[c]
      {
        NextPosition(order, roundRobin, i);
        iter := (iter + 1) % |order|;
        var id := order[iter];
        forall c | 0 <= c < n
          ensures !Seen(order, roundRobin, i, id)
          ensures Seen(order, roundRobin, i + 1, c) <==> Seen(order, roundRobin, i, c) || c == id
        { SeenNext(order, roundRobin, i, c); }
        CombineCpu(id);
        i := i + 1;
      }
      forall c | 0 <= c < n ensures Seen(order, roundRobin, n, c) { AllSeen(order, roundRobin, c); }
      CombinedServesAll(dist, old(cpus), cpus);
    }

    method Settle()
      requires Valid()
      modifies this`cpus, this`queued
      ensures Valid() && AllCombined(dist, old(cpus), cpus) && Grew(old(queued), queued)
    {
      hide IsOrder, Combined, History, Queued;
      CombLogic();
      AllCombinedOk(dist, old(cpus), cpus);
      HistoryLengths(queued, served, old(cpus));
      HistoryGrows(queued, served, old(cpus), cpus);
      queued := Queued(served, cpus);
    }

    // A write to the end-of-interrupt or the deactivate register; errors are reported as not ok.
    method EndOfInterrupt(cpu: nat, deactivate: bool, value: nat) returns (ok: bool)
      requires Valid() && cpu < |cpus|
      modifies this`cpus, this`roundRobin, this`queued, this`served
      ensures ok <==> Ended(old(cpus[cpu]), deactivate, value).Some?
      ensures ok ==> Valid() && roundRobin == if Ends(old(cpus[cpu]), deactivate) && old(|cpus[cpu].queue|) == 1 then (old(roundRobin) + 1) % |order| else old(roundRobin)
      ensures ok ==> AllCombined(dist, old(cpus)[cpu := Ended(old(cpus[cpu]), deactivate, value).value], cpus)
      ensures ok ==> cpu < old(|served|) && served == ServedHead(old(served), cpu, old(cpus[cpu]), deactivate) && Grew(old(queued), queued)
    {
      hide IsOrder, DistributorOk, AllOk, AllCombined, History, ServedHead, Grew;
      HistoryLengths(queued, served, cpus);
      var c := cpus[cpu];
      if deactivate || !c.split {
        if c.queue == [] { return false; }
        var interrupt := Id(value);
        c := c.(pending := c.pending - {interrupt});
        if interrupt != Id(c.queue[0]) { return false; }
        c := c.(queue := c.queue[1..]);
        if c.queue != [] {
          c := c.(pending := c.pending + {Id(c.queue[0])}, ack := c.queue[0]);
        } else {
          c := c.(ack := Spurious);
          roundRobin := (roundRobin + 1) % |cpus|;
        }
      }
      EndKeepsAll(cpus, cpu, deactivate, value);
      HistoryEnds(queued, served, cpus, cpu, deactivate, value);
      served := ServedHead(served, cpu, cpus[cpu], deactivate);
      cpus := cpus[cpu := c];
      Settle();
      ok := true;
    }

    // A software interrupt from one CPU to its targets.
    method SoftwareInterrupt(cpu: nat, value: nat)
      requires Valid() && cpu < |cpus|
      modifies this`cpus, this`dist, this`queued
      ensures Grew(old(queued), queued)
      ensures Valid() && dist == Retargeted(old(dist), value % 16, SgiTargets(cpu, value))
      ensures AllCombined(dist, RaisedAll(old(cpus), SgiTargets(cpu, value), value % 16, cpu), cpus)
      ensures |cpus| == |old(cpus)| && forall c :: 0 <= c < |cpus| ==> Raises(old(cpus)[c], cpus[c], Reaches(cpu, value, c), value % 16, cpu)
    {
      hide IsOrder, AllOk, AllCombined, SgiTargets, RaisedAll, Raises, Reaches, History, SameQueues, Grew;
      var targets := SgiTargets(cpu, value);
      dist := Retargeted(dist, value % 16, targets);
      RaisedNone(cpus, targets, value % 16, cpu);
      var i := 0;
      while i < |cpus|
        invariant i <= |cpus| == old(|cpus|) && queued == old(queued) && dist == Retargeted(old(dist), value % 16, targets)
        invariant cpus == RaisedAll(old(cpus)[..i], targets, value % 16, cpu) + old(cpus)[i..]
      {
        RaisedOne(old(cpus), cpus, i, targets, value % 16, cpu);
        cpus := cpus[i := Raised(cpus[i], i in targets, value % 16, cpu)];
        i := i + 1;
      }
      RaisedKeepsAll(old(cpus), cpus, targets, value % 16, cpu);
      HistoryKept(queued, served, old(cpus), cpus);
      Settle();
      RaisesAll(dist, old(cpus), cpus, cpu, value);
    }

    // A device line changes: shared interrupts reach every CPU, private ones the CPUs in the upper half.
    method DeviceInterrupt(level: bool, irq: nat, targets: nat) returns (ok: bool)
      requires Valid() && irq < Interrupts
      modifies this`cpus, this`dist, this`queued
      ensures ok ==> Grew(old(queued), queued)
      ensures ok <==> irq >= 16
      ensures ok ==> Valid() && AllCombined(dist, PendingAll(old(cpus), irq, level, targets), cpus)
      ensures ok ==> |cpus| == |old(cpus)| && forall c :: 0 <= c < |cpus| ==>
        cpus[c].pending == if irq < 32 && !Bit(targets, c) then old(cpus)[c].pending
                           else if level then old(cpus)[c].pending + {irq} else old(cpus)[c].pending - {irq}
      ensures ok ==> dist == if irq < 32 && Targeted(|cpus|, targets) then Retargeted(old(dist), irq, TargetSet(targets % 256)) else old(dist)
    {
      hide AllOk, AllCombined, PendingAll, Bit, TargetSet, History, SameQueues, Grew;
      if irq < 16 { return false; }
      if irq >= 32 {
        PendingKeepsAll(cpus, irq, level, targets);
        cpus := PendingAll(cpus, irq, level, targets);
      } else {
        PrivateInterrupt(level, irq, targets);
        PendingKeepsAll(old(cpus), irq, level, targets);
      }
      HistoryKept(queued, served, old(cpus), cpus);
      Settle();
      PendingMeans(dist, old(cpus), cpus, irq, level, targets);
      ok := true;
    }

    // A write to a set-enable register: bit i enables interrupt 8 * index + i, for all CPUs if it is shared.
    method EnableInterrupts(cpu: nat, index: nat, value: nat)
      requires Valid() && cpu < |cpus| && index * 8 + 32 <= Interrupts
      modifies this`cpus, this`queued
      ensures Grew(old(queued), queued)
      ensures Valid() && AllCombined(dist, EnabledAll(old(cpus), cpu, index, value, 32), cpus)
    {
      hide IsOrder, AllOk, AllCombined, EnabledAll, History, SameQueues, Grew;
      EnabledNone(cpus, cpu, index, value);
      var i := 0;
      while i < 32
        invariant i <= 32 && |cpus| == |old(cpus)| && queued == old(queued)
        invariant cpus == EnabledAll(old(cpus), cpu, index, value, i)
      {
        EnabledOne(old(cpus), cpu, index, value, i);
        if Bit(value, i) { cpus := EnableFor(cpus, cpu, index * 8 + i); }
        i := i + 1;
      }
      EnabledKeepsAll(cpus, old(cpus), cpu, index, value);
      HistoryKept(queued, served, old(cpus), cpus);
      Settle();
    }

    // Writes to the other registers that the logic reads.
    method WriteRegister(r: Register)
      requires Valid() && RegisterOk(r, |cpus|)
      modifies this`cpus, this`dist, this`queued
      ensures Grew(old(queued), queued)
      ensures Valid() && dist == WrittenDist(old(dist), r) && AllCombined(dist, WrittenCpus(old(cpus), r), cpus)
      ensures |cpus| == |old(cpus)| && match r
        case DistControl(e) => dist == old(dist).(enabled := e)
        case CpuControl(c, takes, split) => cpus[c].takes == takes && cpus[c].split == split && dist == old(dist)
        case CpuMask(c, m) => cpus[c].mask == m && dist == old(dist)
        case Priority(t, p) => dist.priority == old(dist.priority)[t := p] && dist.targets == old(dist.targets)
        case Target(t, list) => dist.targets == old(dist.targets)[t := TargetSet(list)] && dist.priority == old(dist.priority)
    {
      hide IsOrder, AllCombined, History, Grew;
      dist := WrittenDist(dist, r);
      cpus := WrittenCpus(cpus, r);
      assert AllOk(cpus);
      HistoryKept(queued, served, old(cpus), cpus);
      Settle();
      CombinedKeepsSettings(dist, WrittenCpus(old(cpus), r), cpus);
    }

    method PrivateInterrupt(level: bool, irq: nat, targets: nat)
      requires Valid() && irq < 32
      modifies this`cpus, this`dist
      ensures cpus == PendingAll(old(cpus), irq, level, targets)
      ensures dist == if Targeted(|cpus|, targets) then Retargeted(old(dist), irq, TargetSet(targets % 256)) else old(dist)
    {
      hide AllOk, Bit, TargetSet, WithPending, PrivateUpTo, PendingAll;
      PrivateStart(order, cpus, dist, irq, level, targets);
      var i := 0;
      while i < |order|
        invariant i <= |order| == |cpus| == |old(cpus)| && DistributorOk(dist)
        invariant PrivateUpTo(order, i, old(cpus), cpus, old(dist), dist, irq, level, targets)
      {
        var c := order[i];
        PrivateStep(order, i, old(cpus), cpus, old(dist), dist, irq, level, targets);
        if Bit(targets, c) {
          dist := Retargeted(dist, irq, TargetSet(targets % 256));
          cpus := cpus[c := WithPending(cpus[c], irq, level)];
        }
        i := i + 1;
      }
      PrivateEnd(order, old(cpus), cpus, old(dist), dist, irq, level, targets);
    }
  }

  lemma NoneSeen(order: seq<nat>, roundRobin: nat)
    requires roundRobin < |order|
    ensures forall c :: !Seen(order, roundRobin, 0, c)
  {
  }

  // The CPU looked at before round j.
  ghost function Previous(roundRobin: nat, n: nat, j: nat): int {
    if j == 0 then roundRobin else Position(roundRobin, n, j - 1)
  }

  lemma FirstPosition(roundRobin: nat, n: nat)
    ensures Previous(roundRobin, n, 0) == roundRobin
  {
  }

  lemma NextPosition(order: seq<nat>, roundRobin: nat, j: nat)
    requires IsOrder(order) && roundRobin < |order| && j < |order|
    ensures 0 <= Previous(roundRobin, |order|, j) < |order|
    ensures var p := Position(roundRobin, |order|, j);
      && (Previous(roundRobin, |order|, j) + 1) % |order| == p
      && 0 <= p < |order| && Previous(roundRobin, |order|, j + 1) == p && order[p] < |order|
  {
    StepRound(Previous(roundRobin, |order|, j), |order|);
  }

  lemma EndKeepsAll(cpus: seq<Cpu>, cpu: nat, deactivate: bool, value: nat)
    requires AllOk(cpus) && cpu < |cpus|
    ensures var e := Ended(cpus[cpu], deactivate, value); e.Some? ==> AllOk(cpus[cpu := e.value])
  {
    var e := Ended(cpus[cpu], deactivate, value);
    if e.Some? { EndedOk(cpus[cpu], deactivate, value); }
  }

  function Retargeted(d: Distributor, t: nat, targets: set<nat>): (r: Distributor)
    requires t < |d.targets|
  {
    d.(targets := d.targets[t := targets])
  }

  // Software interrupt t from CPU `from`, if this CPU is a target.
  function Raised(c: Cpu, target: bool, t: nat, from: nat): (r: Cpu) {
    if target then c.(origins := c.origins[t := from], pending := c.pending + {t}) else c
  }

  // The interrupt is pending with its origin at the CPUs reached; the others keep both.
  ghost predicate Raises(before: Cpu, after: Cpu, reached: bool, t: nat, from: nat) {
    if reached then after.pending == before.pending + {t} && after.origins == before.origins[t := from]
    else after.pending == before.pending && after.origins == before.origins
  }

  lemma RaisesAll(d: Distributor, before: seq<Cpu>, after: seq<Cpu>, cpu: nat, value: nat)
    requires AllCombined(d, RaisedAll(before, SgiTargets(cpu, value), value % 16, cpu), after)
    ensures |after| == |before| && forall c :: 0 <= c < |after| ==> Raises(before[c], after[c], Reaches(cpu, value, c), value % 16, cpu)
  {
    hide SgiTargets, Reaches, Scan;
    forall c | 0 <= c < |after| ensures Raises(before[c], after[c], Reaches(cpu, value, c), value % 16, cpu) { SgiReaches(cpu, value, c); }
  }

  ghost function RaisedAll(cpus: seq<Cpu>, targets: set<nat>, t: nat, from: nat): (r: seq<Cpu>) {
    seq(|cpus|, c requires 0 <= c < |cpus| => Raised(cpus[c], c in targets, t, from))
  }

  lemma RaisedNone(cpus: seq<Cpu>, targets: set<nat>, t: nat, from: nat)
    ensures cpus == RaisedAll(cpus[..0], targets, t, from) + cpus[0..]
  {
  }

  lemma RaisedOne(before: seq<Cpu>, cpus: seq<Cpu>, i: nat, targets: set<nat>, t: nat, from: nat)
    requires i < |before| && cpus == RaisedAll(before[..i], targets, t, from) + before[i..]
    ensures |cpus| == |before| && cpus[i := Raised(cpus[i], i in targets, t, from)] == RaisedAll(before[..i + 1], targets, t, from) + before[i + 1..]
  {
  }

  lemma RaisedKeepsAll(before: seq<Cpu>, cpus: seq<Cpu>, targets: set<nat>, t: nat, from: nat)
    requires AllOk(before) && cpus == RaisedAll(before[..|before|], targets, t, from) + before[|before|..]
    ensures cpus == RaisedAll(before, targets, t, from) && AllOk(cpus) && SameQueues(before, cpus)
  {
    assert before[..|before|] == before;
  }

  function WithPending(c: Cpu, t: nat, level: bool): (r: Cpu) {
    c.(pending := if level then c.pending + {t} else c.pending - {t})
  }

  // The line of a device has changed for its targets.
  function PendingAll(cpus: seq<Cpu>, irq: nat, level: bool, targets: nat): (r: seq<Cpu>) {
    seq(|cpus|, c requires 0 <= c < |cpus| =>
      if irq >= 32 || Bit(targets, c) then WithPending(cpus[c], irq, level) else cpus[c])
  }

  lemma PendingMeans(d: Distributor, before: seq<Cpu>, after: seq<Cpu>, irq: nat, level: bool, targets: nat)
    requires AllCombined(d, PendingAll(before, irq, level, targets), after)
    ensures |after| == |before| && forall c :: 0 <= c < |after| ==>
      after[c].pending == if irq < 32 && !Bit(targets, c) then before[c].pending
                          else if level then before[c].pending + {irq} else before[c].pending - {irq}
  {
    hide Scan, Bit;
  }

  lemma PendingKeepsAll(cpus: seq<Cpu>, irq: nat, level: bool, targets: nat)
    requires AllOk(cpus)
    ensures |PendingAll(cpus, irq, level, targets)| == |cpus| && AllOk(PendingAll(cpus, irq, level, targets))
    ensures SameQueues(cpus, PendingAll(cpus, irq, level, targets))
  {
  }

  // The first i connected CPUs have been told.
  ghost predicate PrivateUpTo(order: seq<nat>, i: nat, before: seq<Cpu>, cpus: seq<Cpu>, d0: Distributor, d: Distributor, irq: nat, level: bool, targets: nat)
    requires i <= |order| == |before| == |cpus| && irq < |d0.targets|
  {
    && (forall c :: 0 <= c < |cpus| ==> cpus[c] == if c in order[..i] && Bit(targets, c) then WithPending(before[c], irq, level) else before[c])
    && d == if AnyTarget(order, i, targets) then Retargeted(d0, irq, TargetSet(targets % 256)) else d0
  }

  ghost predicate AnyTarget(order: seq<nat>, i: nat, targets: nat)
    requires i <= |order|
  {
    exists k :: 0 <= k < i && Bit(targets, order[k])
  }

  lemma PrivateStart(order: seq<nat>, cpus: seq<Cpu>, d: Distributor, irq: nat, level: bool, targets: nat)
    requires |order| == |cpus| && irq < |d.targets|
    ensures PrivateUpTo(order, 0, cpus, cpus, d, d, irq, level, targets)
  {
  }

  lemma PrivateStep(order: seq<nat>, i: nat, before: seq<Cpu>, cpus: seq<Cpu>, d0: Distributor, d: Distributor, irq: nat, level: bool, targets: nat)
    requires i < |order| == |before| == |cpus| && irq < |d0.targets| && irq < |d.targets| && IsOrder(order)
    requires PrivateUpTo(order, i, before, cpus, d0, d, irq, level, targets)
    ensures order[i] < |cpus|
    ensures !Bit(targets, order[i]) ==> PrivateUpTo(order, i + 1, before, cpus, d0, d, irq, level, targets)
    ensures Bit(targets, order[i]) ==>
      PrivateUpTo(order, i + 1, before, cpus[order[i] := WithPending(cpus[order[i]], irq, level)], d0, Retargeted(d, irq, TargetSet(targets % 256)), irq, level, targets)
  {
    hide Bit, TargetSet, WithPending;
    var c := order[i];
    assert order[..i + 1] == order[..i] + [c] && c !in order[..i];
    assert AnyTarget(order, i + 1, targets) <==> AnyTarget(order, i, targets) || Bit(targets, c);
  }

  lemma PrivateEnd(order: seq<nat>, before: seq<Cpu>, cpus: seq<Cpu>, d0: Distributor, d: Distributor, irq: nat, level: bool, targets: nat)
    requires |order| == |before| == |cpus| && irq < |d0.targets| && irq < 32 && IsOrder(order)
    requires PrivateUpTo(order, |order|, before, cpus, d0, d, irq, level, targets)
    ensures cpus == PendingAll(before, irq, level, targets)
    ensures d == if Targeted(|cpus|, targets) then Retargeted(d0, irq, TargetSet(targets % 256)) else d0
  {
    hide Bit, TargetSet, WithPending;
    assert order[..|order|] == order;
    if Targeted(|cpus|, targets) {
      var c :| 0 <= c < |cpus| && Bit(targets, c);
      assert c in order;
      var k :| 0 <= k < |order| && order[k] == c;
      assert Bit(targets, order[k]);
    }
    assert AnyTarget(order, |order|, targets) <==> Targeted(|cpus|, targets);
  }

  // Some CPU below n is a target.
  ghost predicate Targeted(n: nat, targets: nat) { exists c: nat :: c < n && Bit(targets, c) }

  function Enable(c: Cpu, t: nat): (r: Cpu) { c.(enables := c.enables[t := true]) }

  function EnableFor(cpus: seq<Cpu>, cpu: nat, t: nat): (r: seq<Cpu>)
    requires cpu < |cpus|
  {
    seq(|cpus|, c requires 0 <= c < |cpus| => if t > 31 || c == cpu then Enable(cpus[c], t) else cpus[c])
  }

  ghost function EnabledAll(cpus: seq<Cpu>, cpu: nat, index: nat, value: nat, bits: nat): (r: seq<Cpu>)
    requires cpu < |cpus|
    ensures |r| == |cpus|
  {
    if bits == 0 then cpus
    else if Bit(value, bits - 1) then EnableFor(EnabledAll(cpus, cpu, index, value, bits - 1), cpu, index * 8 + bits - 1)
    else EnabledAll(cpus, cpu, index, value, bits - 1)
  }

  lemma EnabledNone(cpus: seq<Cpu>, cpu: nat, index: nat, value: nat)
    requires cpu < |cpus|
    ensures EnabledAll(cpus, cpu, index, value, 0) == cpus
  {
  }

  lemma EnabledOne(cpus: seq<Cpu>, cpu: nat, index: nat, value: nat, i: nat)
    requires cpu < |cpus|
    ensures var r := EnabledAll(cpus, cpu, index, value, i);
      EnabledAll(cpus, cpu, index, value, i + 1) == if Bit(value, i) then EnableFor(r, cpu, index * 8 + i) else r
  {
  }

  // The meaning of the enable bits: exactly the named interrupts are enabled, nothing else changes.
  lemma {:induction false} EnabledMeans(cpus: seq<Cpu>, cpu: nat, index: nat, value: nat, bits: nat, c: nat)
    requires cpu < |cpus| && c < |cpus|
    ensures var (e, was) := (EnabledAll(cpus, cpu, index, value, bits)[c], cpus[c]);
      && e == was.(enables := e.enables)
      && forall t :: var named := index * 8 <= t < index * 8 + bits && Bit(value, t - index * 8) && (t > 31 || c == cpu);
           && (t in e.enables <==> t in was.enables || named)
           && (t in e.enables ==> e.enables[t] == (named || was.enables[t]))
  {
    if bits > 0 { EnabledMeans(cpus, cpu, index, value, bits - 1, c); }
  }

  lemma EnabledKeepsAll(cpus: seq<Cpu>, before: seq<Cpu>, cpu: nat, index: nat, value: nat)
    requires cpu < |before| && index * 8 + 32 <= Interrupts && AllOk(before) && cpus == EnabledAll(before, cpu, index, value, 32)
    ensures AllOk(cpus) && SameQueues(before, cpus)
  {
    forall c | 0 <= c < |cpus| ensures CpuOk(cpus[c]) && cpus[c].queue == before[c].queue {
      EnabledMeans(before, cpu, index, value, 32, c);
      assert CpuOk(before[c]);
    }
  }

  datatype Register =
    | DistControl(enabled: bool)
    | CpuControl(cpu: nat, takes: bool, split: bool)
    | CpuMask(cpu: nat, mask: nat)
    | Priority(t: nat, priority: nat)
    | Target(t: nat, list: nat)

  predicate RegisterOk(r: Register, n: nat) {
    match r
    case DistControl(_) => true
    case CpuControl(cpu, _, _) => cpu < n
    case CpuMask(cpu, _) => cpu < n
    case Priority(t, _) => t < Interrupts
    case Target(t, _) => t < Interrupts
  }

  function WrittenDist(d: Distributor, r: Register): (d': Distributor)
    requires DistributorOk(d)
    ensures DistributorOk(d')
  {
    match r
    case DistControl(e) => d.(enabled := e)
    case Priority(t, p) => if t < Interrupts then d.(priority := d.priority[t := p]) else d
    case Target(t, list) => if t < Interrupts then Retargeted(d, t, TargetSet(list)) else d
    case _ => d
  }

  function WrittenCpus(cpus: seq<Cpu>, r: Register): (cpus': seq<Cpu>)
    requires RegisterOk(r, |cpus|)
    ensures |cpus'| == |cpus| && forall c :: 0 <= c < |cpus| ==>
      cpus'[c].queue == cpus[c].queue && cpus'[c].ack == cpus[c].ack && cpus'[c].enables == cpus[c].enables
  {
    match r
    case CpuControl(cpu, takes, split) => cpus[cpu := cpus[cpu].(takes := takes, split := split)]
    case CpuMask(cpu, mask) => cpus[cpu := cpus[cpu].(mask := mask)]
    case _ => cpus
  }
}
