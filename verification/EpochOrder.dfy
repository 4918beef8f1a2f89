/** Every request is handled exactly once, in the order of epoch and time stamp. */
module EpochOrder {
  import opened EpochProtocol
  import opened EpochCalls

  // The request that the memory thread has popped and neither handled nor put back.
  function InHand(mem: MemPc): (h: multiset<Req>) {
    match mem
    case Test(_, k) => multiset{k}
    case TakeLock(_, k) => multiset{k}
    case Handle(_, k) => multiset{k}
    case _ => multiset{}
  }

  // Requests pushed and not yet handled.
  function Pending(s: State): (p: multiset<Req>) {
    s.queue + InHand(s.mem)
  }

  ghost predicate NoneBelow(queue: multiset<Req>, epoch: nat) {
    forall r :: r in queue ==> epoch <= r.epoch
  }

  ghost predicate NoneBefore(queue: multiset<Req>, k: Req) {
    forall r :: r in queue ==> !Before(r, k)
  }

  // What the memory thread knows at each of its steps.
  ghost predicate MemOk(mem: MemPc, queue: multiset<Req>, memEpoch: nat, cpuEpoch: nat) {
    match mem
    case Top => true
    case WaitCpu(tmp) => tmp == memEpoch
    case FirstPop(tmp) => tmp == memEpoch < cpuEpoch
    case Test(tmp, k) =>
      tmp == memEpoch < cpuEpoch && NoneBelow(queue, k.epoch) && (k.epoch == tmp ==> NoneBefore(queue, k))
    case SkipTo(k) => memEpoch < k.epoch <= cpuEpoch && NoneBelow(queue, k.epoch)
    case TakeLock(tmp, k) => tmp == k.epoch == memEpoch < cpuEpoch && NoneBefore(queue, k)
    case Handle(tmp, k) =>
      tmp == memEpoch < cpuEpoch && NoneBelow(queue, k.epoch) && (k.epoch == tmp ==> NoneBefore(queue, k))
    case NextPop(tmp) => tmp == memEpoch < cpuEpoch
    case LeaveTo(tmp, k) => tmp == memEpoch < k.epoch <= cpuEpoch && NoneBelow(queue, k.epoch)
    case Release(tmp, exitLoop) =>
      if exitLoop then tmp <= memEpoch && tmp < cpuEpoch
      else tmp == memEpoch < cpuEpoch && NoneBelow(queue, tmp + 1)
    case Bump(tmp) => tmp == memEpoch < cpuEpoch && NoneBelow(queue, tmp + 1)
  }

  ghost predicate Sorted(rs: seq<Req>) {
    forall i, j :: 0 <= i < j < |rs| ==> !Before(rs[j], rs[i])
  }

  // Pending requests belong to epochs lo..hi, handled ones to epochs before hi.
  ghost predicate InWindow(handled: seq<Req>, pending: multiset<Req>, lo: nat, hi: nat) {
    && lo <= hi
    && (forall r :: r in pending ==> lo <= r.epoch <= hi)
    && (forall i :: 0 <= i < |handled| ==> handled[i].epoch < hi)
  }

  // No pending request should have been handled earlier.
  ghost predicate Follows(handled: seq<Req>, pending: multiset<Req>) {
    forall i, r :: 0 <= i < |handled| && r in pending ==> !Before(r, handled[i])
  }

  ghost predicate Ledger(pushed: seq<Req>, handled: seq<Req>, pending: multiset<Req>, lo: nat, hi: nat) {
    && InWindow(handled, pending, lo, hi)
    && Follows(handled, pending)
    && Sorted(handled)
    && multiset(pushed) == multiset(handled) + pending
  }

  ghost predicate OrderInv(s: State) {
    && MemOk(s.mem, s.queue, s.memEpoch, s.cpuEpoch)
    && Ledger(s.pushed, s.handled, Pending(s), s.memEpoch, s.cpuEpoch)
  }

  // ------------------------------------------------------------------ the ledger

  lemma LedgerPush(pushed: seq<Req>, handled: seq<Req>, pending: multiset<Req>, lo: nat, hi: nat, k: Req)
    requires Ledger(pushed, handled, pending, lo, hi) && k.epoch == hi
    ensures Ledger(pushed + [k], handled, pending + multiset{k}, lo, hi)
  {
  }

  lemma LedgerHandle(pushed: seq<Req>, handled: seq<Req>, queue: multiset<Req>, lo: nat, hi: nat, k: Req)
    requires Ledger(pushed, handled, queue + multiset{k}, lo, hi) && k.epoch < hi && NoneBefore(queue, k)
    ensures Ledger(pushed, handled + [k], queue, lo, hi)
  {
    assert k in queue + multiset{k};
    assert forall r :: r in queue ==> r in queue + multiset{k};
  }

  lemma LedgerWindow(pushed: seq<Req>, handled: seq<Req>, pending: multiset<Req>, lo: nat, hi: nat, lo': nat, hi': nat)
    requires Ledger(pushed, handled, pending, lo, hi) && NoneBelow(pending, lo') && lo' <= hi <= hi'
    ensures Ledger(pushed, handled, pending, lo', hi')
  {
  }

  // ------------------------------------------------------------------ the steps

  // A new request belongs to the CPU's own epoch and disturbs nothing the memory thread knows.
  lemma MemOkAfterPush(mem: MemPc, queue: multiset<Req>, memEpoch: nat, cpuEpoch: nat, k: Req)
    requires MemOk(mem, queue, memEpoch, cpuEpoch) && k.epoch == cpuEpoch
    requires forall h :: h in InHand(mem) ==> h.epoch <= cpuEpoch
    ensures MemOk(mem, queue + multiset{k}, memEpoch, cpuEpoch)
  {
    if mem.Test? || mem.Handle? || mem.TakeLock? { assert mem.k in InHand(mem); }
  }

  lemma NotifyKeepsOrder(s: State, kind: NotifyType, id: nat, time: nat, tag: nat)
    requires OrderInv(s)
    ensures OrderInv(StepNotify(s, kind, id, time, tag))
  {
    hide MemOk, Follows, Sorted;
    var s' := StepNotify(s, kind, id, time, tag);
    if s' != s {
      var k := Req(kind, id, s.cpuEpoch, time, tag);
      assert Pending(s') == Pending(s) + multiset{k};
      assert forall h :: h in InHand(s.mem) ==> h in Pending(s);
      LedgerPush(s.pushed, s.handled, Pending(s), s.memEpoch, s.cpuEpoch, k);
      MemOkAfterPush(s.mem, s.queue, s.memEpoch, s.cpuEpoch, k);
    }
  }

  lemma LaterCpuKeepsOrder(s: State, s': State)
    requires OrderInv(s) && s'.cpuEpoch >= s.cpuEpoch && s'.memEpoch == s.memEpoch && s'.mem == s.mem
    requires s'.queue == s.queue && s'.pushed == s.pushed && s'.handled == s.handled
    ensures OrderInv(s')
  {
    LedgerWindow(s.pushed, s.handled, Pending(s), s.memEpoch, s.cpuEpoch, s.memEpoch, s'.cpuEpoch);
  }

  // The request popped first precedes what stays in the queue.
  lemma Popped(queue: multiset<Req>, k: Req)
    requires IsFirst(k, queue)
    ensures NoneBelow(Without(queue, k), k.epoch) && NoneBefore(Without(queue, k), k)
    ensures Without(queue, k) + multiset{k} == queue
  {
    assert forall r :: r in Without(queue, k) ==> r in queue;
  }

  lemma NoneInEmpty(epoch: nat)
    ensures NoneBelow(multiset{}, epoch)
  {
  }

  lemma FirstPopKeepsOrder(s: State, choice: Req)
    requires OrderInv(s) && s.mem.FirstPop?
    ensures OrderInv(StepFirstPop(s, choice, IsFirst(choice, s.queue)))
  {
    hide Ledger, IsFirst, Without, NoneBefore, NoneBelow;
    if IsFirst(choice, s.queue) {
      Popped(s.queue, choice);
      assert Pending(StepFirstPop(s, choice, true)) == Pending(s);
    } else if IsEmpty(s.queue) {
      NoneInEmpty(s.mem.tmp + 1);
    }
  }

  lemma NextPopKeepsOrder(s: State, choice: Req)
    requires OrderInv(s) && s.mem.NextPop?
    ensures OrderInv(StepNextPop(s, choice, IsFirst(choice, s.queue)))
  {
    hide Ledger, IsFirst, Without, NoneBefore, NoneBelow;
    if IsFirst(choice, s.queue) {
      Popped(s.queue, choice);
      assert Pending(StepNextPop(s, choice, true)) == Pending(s);
    } else if IsEmpty(s.queue) {
      NoneInEmpty(s.mem.tmp + 1);
    }
  }

  lemma InHandInWindow(s: State)
    requires OrderInv(s) && (s.mem.Test? || s.mem.TakeLock? || s.mem.Handle?)
    ensures s.memEpoch <= s.mem.k.epoch <= s.cpuEpoch
  {
    assert s.mem.k in Pending(s);
  }

  lemma PutBackKeepsOrder(s: State, delay: nat)
    requires OrderInv(s) && s.mem.Handle? && s.mem.tmp != s.mem.k.epoch
    ensures OrderInv(StepHandle(s, delay))
  {
    hide Ledger, NoneBefore;
    InHandInWindow(s);
    assert Pending(StepHandle(s, delay)) == Pending(s);
  }

  lemma HandleEffect(s: State, delay: nat)
    requires s.mem.Handle? && s.mem.tmp == s.mem.k.epoch == s.memEpoch < s.cpuEpoch
    ensures var s' := StepHandle(s, delay);
      && s'.handled == s.handled + [s.mem.k] && s'.queue == s.queue && s'.pushed == s.pushed
      && s'.memEpoch == s.memEpoch && s'.cpuEpoch == s.cpuEpoch && InHand(s'.mem) == multiset{}
      && MemOk(s'.mem, s'.queue, s'.memEpoch, s'.cpuEpoch)
  {
    hide NoneBelow, NoneBefore;
  }

  lemma HandleKeepsOrder(s: State, delay: nat)
    requires OrderInv(s) && s.mem.Handle? && s.mem.tmp == s.mem.k.epoch
    ensures OrderInv(StepHandle(s, delay))
  {
    hide Ledger, NoneBefore, NoneBelow, StepHandle;
    HandleEffect(s, delay);
    LedgerHandle(s.pushed, s.handled, s.queue, s.memEpoch, s.cpuEpoch, s.mem.k);
    assert Pending(StepHandle(s, delay)) == s.queue;
  }

  // The steps that move the memory thread's own epoch.
  lemma AdvanceKeepsOrder(s: State, choice: Req, delay: nat)
    requires OrderInv(s) && (s.mem.SkipTo? || s.mem.LeaveTo? || s.mem.Bump?)
    ensures OrderInv(StepMem(s, choice, delay))
  {
    hide Follows, Sorted;
    var s' := StepMem(s, choice, delay);
    assert Pending(s') == Pending(s) == s.queue;
    LedgerWindow(s.pushed, s.handled, Pending(s), s.memEpoch, s.cpuEpoch, s'.memEpoch, s.cpuEpoch);
  }

  lemma OtherMemKeepsOrder(s: State, choice: Req, delay: nat)
    requires OrderInv(s) && (s.mem.Top? || s.mem.WaitCpu? || s.mem.TakeLock? || s.mem.Release?)
    ensures OrderInv(StepMem(s, choice, delay))
  {
    hide Ledger;
  }

  lemma TestKeepsOrder(s: State, choice: Req, delay: nat)
    requires OrderInv(s) && s.mem.Test?
    ensures OrderInv(StepMem(s, choice, delay))
  {
    hide Ledger;
    InHandInWindow(s);
    assert Pending(StepMem(s, choice, delay)) == Pending(s);
  }

  lemma MemKeepsOrder(s: State, choice: Req, delay: nat)
    requires OrderInv(s)
    ensures OrderInv(StepMem(s, choice, delay))
  {
    hide OrderInv;
    match s.mem {
      case FirstPop(_) => FirstPopKeepsOrder(s, choice);
      case NextPop(_) => NextPopKeepsOrder(s, choice);
      case Handle(tmp, k) => if tmp == k.epoch { HandleKeepsOrder(s, delay); } else { PutBackKeepsOrder(s, delay); }
      case SkipTo(_) => AdvanceKeepsOrder(s, choice, delay);
      case LeaveTo(_, _) => AdvanceKeepsOrder(s, choice, delay);
      case Bump(_) => AdvanceKeepsOrder(s, choice, delay);
      case Test(_, _) => TestKeepsOrder(s, choice, delay);
      case _ => OtherMemKeepsOrder(s, choice, delay);
    }
  }

  lemma ApplyKeepsOrder(s: State, a: Action)
    requires OrderInv(s)
    ensures OrderInv(Apply(s, a))
  {
    hide OrderInv, StepMem;
    match a {
      case Notify(kind, id, time, tag) => NotifyKeepsOrder(s, kind, id, time, tag);
      case SetNotify(on) => LaterCpuKeepsOrder(s, Apply(s, a));
      case FillBiases => LaterCpuKeepsOrder(s, StepFillBiases(s));
      case CpuRuns => LaterCpuKeepsOrder(s, StepCpu(s));
      case MemRuns(choice, delay) => MemKeepsOrder(s, choice, delay);
    }
  }

  lemma {:induction false} RunKeepsOrder(cpus: nat, notify: bool, actions: seq<Action>)
    ensures OrderInv(Run(Init(cpus, notify), actions))
    decreases |actions|
  {
    if actions != [] {
      hide OrderInv, Apply;
      RunKeepsOrder(cpus, notify, actions[..|actions| - 1]);
      ApplyKeepsOrder(Run(Init(cpus, notify), actions[..|actions| - 1]), actions[|actions| - 1]);
    }
  }

  // Over any run: the handled requests are sorted by epoch and time stamp; they and the pending ones
  // are the notifications of the run, each once, with the time stamp it came with, in the epoch it
  // came in; an epoch is handled only after the CPU side has left it; and once the memory thread has
  // moved past an epoch, no request of that epoch is pending.
  lemma HandledInOrder(cpus: nat, notify: bool, actions: seq<Action>)
    ensures var (s, requests) := (Run(Init(cpus, notify), actions), Requests(cpus, notify, actions));
      && (forall i, j :: 0 <= i < j < |s.handled| ==>
            s.handled[i].epoch < s.handled[j].epoch || (s.handled[i].epoch == s.handled[j].epoch && s.handled[i].time <= s.handled[j].time))
      && multiset(requests) == multiset(s.handled) + Pending(s)
      && (forall i :: 0 <= i < |s.handled| ==> s.handled[i].epoch < EpochsOf(cpus, notify, actions))
      && (forall r :: r in requests && r.epoch < s.memEpoch ==> multiset(s.handled)[r] == multiset(requests)[r])
  {
    hide Run, Requests, EpochsOf, NotifyOn, DelaysOf;
    RunKeepsOrder(cpus, notify, actions);
    RunCalls(cpus, notify, actions);
    var s := Run(Init(cpus, notify), actions);
    forall r | r in s.pushed && r.epoch < s.memEpoch
      ensures multiset(s.handled)[r] == multiset(s.pushed)[r]
    {
      assert r !in Pending(s);
    }
  }
}
