/** The interrupt queue of one CPU interface of the interrupt controller (gic). */
module GicQueues {
  import opened Options

  const Interrupts: nat := 512   // N_GIC_INTERRUPTS
  const Spurious: nat := 1023

  datatype Cpu = Cpu(
    takes: bool,              // bit 0 of the CPU control register
    split: bool,              // bit 9: end of interrupt and deactivation are separate writes
    mask: nat,                // priority mask
    pending: set<nat>,
    enables: map<nat, bool>,
    origins: map<nat, nat>,   // the CPU that last raised each software interrupt
    queue: seq<nat>,          // acknowledge values
    ack: nat,                 // acknowledge register
    line: bool)               // interrupt line to the CPU

  datatype Distributor = Distributor(enabled: bool, priority: seq<nat>, targets: seq<set<nat>>)

  ghost predicate DistributorOk(d: Distributor) { |d.priority| == |d.targets| == Interrupts }

  // A software interrupt carries the CPU it comes from above bit 10.
  function AckValue(c: Cpu, t: nat): nat {
    if t < 16 then t + 1024 * (if t in c.origins then c.origins[t] else 0) else t
  }

  function Id(ack: nat): nat { ack % 1024 }

  // Interrupt t may be signalled to CPU number `id`.
  predicate Eligible(d: Distributor, c: Cpu, id: nat, t: nat)
    requires DistributorOk(d) && t < Interrupts
  {
    && t in c.enables && c.enables[t] && t in c.pending && id in d.targets[t] && d.priority[t] <= c.mask
  }

  // The queue after the interrupts below t have been looked at.
  function Scan(d: Distributor, c: Cpu, id: nat, t: nat): (q: seq<nat>)
    requires DistributorOk(d) && t <= Interrupts
  {
    if t == 0 then c.queue else
    var q := Scan(d, c, id, t - 1);
    var v := AckValue(c, t - 1);
    if Eligible(d, c, id, t - 1) && v !in q then q + [v] else q
  }

  ghost predicate Distinct(q: seq<nat>) { forall i, j :: 0 <= i < j < |q| ==> q[i] != q[j] }

  lemma {:induction false} ScanExtends(d: Distributor, c: Cpu, id: nat, t: nat)
    requires DistributorOk(d) && t <= Interrupts && Distinct(c.queue)
    ensures c.queue <= Scan(d, c, id, t) && Distinct(Scan(d, c, id, t))
  {
    if t > 0 { ScanExtends(d, c, id, t - 1); }
  }

  // Exactly the signallable interrupts join the queue.
  lemma {:induction false} ScanHolds(d: Distributor, c: Cpu, id: nat, t: nat, v: nat)
    requires DistributorOk(d) && t <= Interrupts
    ensures v in Scan(d, c, id, t) <==> v in c.queue || exists s :: 0 <= s < t && Eligible(d, c, id, s) && AckValue(c, s) == v
  {
    if t > 0 {
      ScanHolds(d, c, id, t - 1, v);
      var q := Scan(d, c, id, t - 1);
      assert v in Scan(d, c, id, t) <==> v in q || (Eligible(d, c, id, t - 1) && AckValue(c, t - 1) == v);
    }
  }

  lemma AckId(c: Cpu, t: nat)
    requires t < 1024
    ensures Id(AckValue(c, t)) == t
  {
  }

  // Newcomers are queued in the order of their interrupt numbers.
  lemma {:induction false} NewcomersSorted(d: Distributor, c: Cpu, id: nat, t: nat)
    requires DistributorOk(d) && t <= Interrupts
    ensures var q := Scan(d, c, id, t);
      && |q| >= |c.queue|
      && (forall i :: |c.queue| <= i < |q| ==> Id(q[i]) < t)
      && (forall i, j :: |c.queue| <= i < j < |q| ==> Id(q[i]) < Id(q[j]))
  {
    if t > 0 {
      NewcomersSorted(d, c, id, t - 1);
      AckId(c, t - 1);
    }
  }

  // ------------------------------------------------------------------ what the logic does to one CPU

  function Combined(d: Distributor, c: Cpu, id: nat): (r: Cpu)
    requires DistributorOk(d)
  {
    if !d.enabled || !c.takes then c.(line := false) else
    var q := Scan(d, c, id, Interrupts);
    c.(queue := q, ack := if q == [] then c.ack else q[0], line := q != [])
  }

  // The queue has no duplicates and the acknowledge register shows its head.
  ghost predicate CpuOk(c: Cpu) {
    && Distinct(c.queue) && (c.queue != [] ==> c.ack == c.queue[0])
    && (forall t :: t in c.enables ==> t < Interrupts) && (forall i :: 0 <= i < |c.queue| ==> Id(c.queue[i]) < Interrupts)
  }

  lemma CombinedOk(d: Distributor, c: Cpu, id: nat)
    requires DistributorOk(d) && CpuOk(c)
    ensures CpuOk(Combined(d, c, id)) && c.queue <= Combined(d, c, id).queue
  {
    ScanExtends(d, c, id, Interrupts);
    NewcomersSorted(d, c, id, Interrupts);
    hide Scan;
    var q := Scan(d, c, id, Interrupts);
    forall i | 0 <= i < |q| ensures Id(q[i]) < Interrupts {
      if i < |c.queue| { assert q[i] == c.queue[i]; }
    }
  }

  // A CPU that is served has every signallable interrupt in its queue, and its line is up iff it has any.
  lemma CombinedComplete(d: Distributor, c: Cpu, id: nat, t: nat)
    requires DistributorOk(d) && t < Interrupts && d.enabled && c.takes
    ensures Eligible(d, c, id, t) ==> AckValue(c, t) in Combined(d, c, id).queue && Combined(d, c, id).line
    ensures Combined(d, c, id).line <==> Combined(d, c, id).queue != []
  {
    hide Eligible, AckValue;
    ScanHolds(d, c, id, Interrupts, AckValue(c, t));
  }

  // The acknowledge value tells the interrupt, and for software interrupts the CPU it comes from.
  lemma AckMeans(c: Cpu, t: nat)
    requires t < Interrupts
    ensures Id(AckValue(c, t)) == t
    ensures AckValue(c, t) / 1024 == if t < 16 && t in c.origins then c.origins[t] else 0
  {
  }

  // Interrupt t joins the queue of a CPU that is served exactly if it is enabled, pending, targeted at
  // the CPU and of a priority value that the mask admits.
  lemma JoinsIff(d: Distributor, c: Cpu, id: nat, t: nat)
    requires DistributorOk(d) && t < Interrupts && d.enabled && c.takes
    ensures AckValue(c, t) in Combined(d, c, id).queue <==>
      || AckValue(c, t) in c.queue
      || (t in c.enables && c.enables[t] && t in c.pending && id in d.targets[t] && d.priority[t] <= c.mask)
  {
    hide AckValue;
    var v := AckValue(c, t);
    ScanHolds(d, c, id, Interrupts, v);
    AckMeans(c, t);
    forall s | 0 <= s < Interrupts && AckValue(c, s) == v ensures s == t { AckMeans(c, s); }
  }

  // Whatever else joins has the number of an interrupt that meets the four conditions.
  lemma NewcomersMean(d: Distributor, c: Cpu, id: nat, v: nat)
    requires DistributorOk(d) && v in Combined(d, c, id).queue && v !in c.queue
    ensures d.enabled && c.takes && Id(v) < Interrupts && v == AckValue(c, Id(v))
    ensures Id(v) in c.enables && c.enables[Id(v)] && Id(v) in c.pending && id in d.targets[Id(v)] && d.priority[Id(v)] <= c.mask
  {
    hide AckValue;
    ScanHolds(d, c, id, Interrupts, v);
    var s :| 0 <= s < Interrupts && Eligible(d, c, id, s) && AckValue(c, s) == v;
    AckMeans(c, s);
  }

  lemma {:induction false} ScanPrefix(d: Distributor, c: Cpu, id: nat, t: nat)
    requires DistributorOk(d) && t <= Interrupts
    ensures c.queue <= Scan(d, c, id, t)
  {
    if t > 0 { ScanPrefix(d, c, id, t - 1); }
  }

  // What the logic does to one CPU, in its own fields.
  ghost predicate Served(d: Distributor, c: Cpu, r: Cpu, id: nat)
    requires DistributorOk(d)
  {
    if !d.enabled || !c.takes then r == c.(line := false) else
    && c.queue <= r.queue && r == c.(queue := r.queue, ack := r.ack, line := r.line)
    && (forall t :: 0 <= t < Interrupts ==> (AckValue(c, t) in r.queue <==>
          || AckValue(c, t) in c.queue
          || (t in c.enables && c.enables[t] && t in c.pending && id in d.targets[t] && d.priority[t] <= c.mask)))
    && (forall v :: v in r.queue && v !in c.queue ==> Id(v) < Interrupts && v == AckValue(c, Id(v)))
    && r.line == (r.queue != []) && r.ack == (if r.queue == [] then c.ack else r.queue[0])
  }

  lemma CombinedServes(d: Distributor, c: Cpu, id: nat)
    requires DistributorOk(d)
    ensures Served(d, c, Combined(d, c, id), id)
  {
    hide Scan, AckValue;
    ScanPrefix(d, c, id, Interrupts);
    if d.enabled && c.takes {
      var r := Combined(d, c, id);
      forall t | 0 <= t < Interrupts ensures AckValue(c, t) in r.queue <==>
          || AckValue(c, t) in c.queue
          || (t in c.enables && c.enables[t] && t in c.pending && id in d.targets[t] && d.priority[t] <= c.mask)
      { JoinsIff(d, c, id, t); }
      forall v | v in r.queue && v !in c.queue ensures Id(v) < Interrupts && v == AckValue(c, Id(v)) { NewcomersMean(d, c, id, v); }
    }
  }

  // A mask that admits more, or a lower priority value, removes no interrupt from the queue.
  lemma MaskMonotone(d: Distributor, c: Cpu, id: nat, mask: nat, v: nat)
    requires DistributorOk(d) && c.mask <= mask && v in Combined(d, c, id).queue
    ensures v in Combined(d, c.(mask := mask), id).queue
  {
    hide AckValue;
    var c' := c.(mask := mask);
    SameAck(c, c', Id(v));
    if d.enabled && c.takes {
      ScanHolds(d, c', id, Interrupts, v);
      if v !in c.queue {
        NewcomersMean(d, c, id, v);
        assert Eligible(d, c', id, Id(v)) && AckValue(c', Id(v)) == v;
      }
    }
  }

  lemma PriorityMonotone(d: Distributor, c: Cpu, id: nat, t: nat, priority: nat, v: nat)
    requires DistributorOk(d) && t < Interrupts && priority <= d.priority[t] && v in Combined(d, c, id).queue
    ensures v in Combined(d.(priority := d.priority[t := priority]), c, id).queue
  {
    hide AckValue;
    var d' := d.(priority := d.priority[t := priority]);
    if d.enabled && c.takes {
      ScanHolds(d', c, id, Interrupts, v);
      if v !in c.queue {
        NewcomersMean(d, c, id, v);
        assert Eligible(d', c, id, Id(v));
      }
    }
  }

  lemma SameAck(c: Cpu, c': Cpu, t: nat)
    requires c'.origins == c.origins
    ensures AckValue(c', t) == AckValue(c, t)
  {
  }

  // ------------------------------------------------------------------ end of interrupt

  predicate Ends(c: Cpu, deactivate: bool) { deactivate || !c.split }

  // The head leaves the queue; None is one of the two errors.
  function Ended(c: Cpu, deactivate: bool, value: nat): (r: Option<Cpu>) {
    if !Ends(c, deactivate) then Some(c)
    else if c.queue == [] || Id(value) != Id(c.queue[0]) then None
    else
      var rest := c.queue[1..];
      var cleared := c.pending - {Id(value)};
      if rest == [] then Some(c.(queue := rest, pending := cleared, ack := Spurious))
      else Some(c.(queue := rest, pending := cleared + {Id(rest[0])}, ack := rest[0]))
  }

  lemma EndedOk(c: Cpu, deactivate: bool, value: nat)
    requires CpuOk(c) && Ended(c, deactivate, value).Some?
    ensures CpuOk(Ended(c, deactivate, value).value)
  {
  }

  // Ending the interrupt that was read is never an error.
  lemma EndOfReadSucceeds(c: Cpu, deactivate: bool)
    requires CpuOk(c)
    ensures Ended(c, deactivate, c.ack).Some? <==> !Ends(c, deactivate) || c.queue != []
  {
  }

  // Numbers beyond the pending words never match the head, so that writing one is an error too.
  lemma LargeIdRefused(c: Cpu, deactivate: bool, value: nat)
    requires CpuOk(c) && Ends(c, deactivate) && Id(value) >= Interrupts
    ensures Ended(c, deactivate, value).None?
  {
  }

  // Ending an interrupt: its pending state is gone unless the next one has the same number, the
  // acknowledge register shows the next one, or 1023 if there is none.
  lemma EndedMeans(c: Cpu, deactivate: bool, value: nat)
    requires Ends(c, deactivate) && Ended(c, deactivate, value).Some?
    ensures var (e, t) := (Ended(c, deactivate, value).value, Id(value));
      && c.queue != [] && Id(c.queue[0]) == t && e.queue == c.queue[1..]
      && (t in e.pending <==> e.queue != [] && Id(e.queue[0]) == t)
      && (forall s :: s != t && s in c.pending ==> s in e.pending)
      && e.ack == (if e.queue == [] then 1023 else e.queue[0])
  {
  }

  // An interrupt that was ended comes back only if the next one has the same number (a software
  // interrupt from another CPU) and its own CPU has raised it last; and once nothing is left to
  // serve the acknowledge register reads 1023.
  lemma EndedStaysAway(d: Distributor, c: Cpu, deactivate: bool, value: nat, id: nat)
    requires DistributorOk(d) && CpuOk(c) && Ends(c, deactivate) && Ended(c, deactivate, value).Some?
    ensures var (e, v) := (Ended(c, deactivate, value).value, c.queue[0]);
      && (v in Combined(d, e, id).queue ==> e.queue != [] && Id(e.queue[0]) == Id(v) && v == AckValue(c, Id(v)))
      && (Combined(d, e, id).queue == [] ==> Combined(d, e, id).ack == 1023)
  {
    var (e, v) := (Ended(c, deactivate, value).value, c.queue[0]);
    EndedMeans(c, deactivate, value);
    SameAck(c, e, Id(v));
    hide AckValue, Eligible;
    if v in Combined(d, e, id).queue {
      assert v !in e.queue;
      NewcomersMean(d, e, id, v);
    }
    CombinedEmpty(d, e, id);
  }

  lemma CombinedEmpty(d: Distributor, c: Cpu, id: nat)
    requires DistributorOk(d) && Distinct(c.queue)
    ensures Combined(d, c, id).queue == [] ==> c.queue == [] && Combined(d, c, id).ack == c.ack
  {
    hide Scan;
    ScanExtends(d, c, id, Interrupts);
  }
}
