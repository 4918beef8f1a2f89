/** Which call of a run has which outcome. */
module SpscCalls {
  import opened SpscBlocks
  import opened SpscQueue

  // ------------------------------------------------------------------ the calls of a run

  // A call is made when its thread is idle; the n-th call of a thread has the n-th outcome.
  ghost function Offers<T>(s: State<T>, actions: seq<Action<T>>): (xs: seq<T>)
    requires Typed(s)
    decreases |actions|
  {
    if actions == [] then [] else
    var (front, a) := (actions[..|actions| - 1], actions[|actions| - 1]);
    Offers(s, front) + if a.CallEnqueue? && Run(s, front).p.PIdle? then [a.x] else []
  }

  // Whether each enqueue may allocate (enqueue) or not (try_enqueue).
  ghost function Modes<T>(s: State<T>, actions: seq<Action<T>>): (ms: seq<bool>)
    requires Typed(s)
    decreases |actions|
  {
    if actions == [] then [] else
    var (front, a) := (actions[..|actions| - 1], actions[|actions| - 1]);
    Modes(s, front) + if a.CallEnqueue? && Run(s, front).p.PIdle? then [a.canAlloc] else []
  }

  ghost function Kinds<T>(s: State<T>, actions: seq<Action<T>>): (ks: seq<Kind>)
    requires Typed(s)
    decreases |actions|
  {
    if actions == [] then [] else
    var (front, a) := (actions[..|actions| - 1], actions[|actions| - 1]);
    Kinds(s, front) + if a.CallDequeue? && Run(s, front).c.CIdle? then [a.kind] else []
  }

  // ------------------------------------------------------------------ the consumer

  // try_dequeue and pop deliver, peek only looks; both may find the queue empty.
  predicate KindFits<T>(kind: Kind, o: PopOutcome<T>) {
    (o.Delivered? ==> kind == Take) && (o.Peeked? ==> kind == Look)
  }

  predicate WorksOn<T>(c: Consumer<T>, kind: Kind) {
    match c
    case CIdle => false
    case CFailed => true
    case CAdvance(_, _, _) => kind == Take
    case CMoveFront(_, _) => kind == Take
    case CLookNext(_, _) => kind == Look
    case CStart(k) => kind == k
    case CCheckTail(k, _, _) => kind == k
    case CRead(k, _, _) => kind == k
    case CCheckTailBlock(k, _, _) => kind == k
    case CRecheck(k) => kind == k
    case CNext(k, _) => kind == k
    case CNextTail(k, _) => kind == k
  }

  // Every completed dequeue has an outcome of its kind, and the thread works on the next one.
  ghost predicate PopsFit<T>(kinds: seq<Kind>, pops: seq<PopOutcome<T>>, c: Consumer<T>) {
    && |kinds| == |pops| + (if c.CIdle? then 0 else 1)
    && (forall i :: 0 <= i < |pops| ==> KindFits(kinds[i], pops[i]))
    && (!c.CIdle? ==> WorksOn(c, kinds[|pops|]))
  }

  ghost predicate StepFitsKind<T>(s: State<T>, s': State<T>, kind: Kind) {
    if s'.c.CIdle? then |s'.pops| == |s.pops| + 1 && s'.pops[..|s.pops|] == s.pops && KindFits(kind, s'.pops[|s.pops|])
    else s'.pops == s.pops && WorksOn(s'.c, kind)
  }

  lemma LastStepsFit<T>(s: State<T>, kind: Kind)
    requires Typed(s) && WorksOn(s.c, kind) && (s.c.CRead? || s.c.CAdvance? || s.c.CCheckTailBlock? || s.c.CLookNext?)
    ensures StepFitsKind(s, ConsumerStep(s), kind)
  {
    hide ProducerTyped, StepCStart, StepCCheckTail, StepCRecheck, StepCNext, StepCNextTail, StepCMoveFront;
  }

  lemma EarlierStepsFit<T>(s: State<T>, kind: Kind)
    requires Typed(s) && WorksOn(s.c, kind) && !s.c.CRead? && !s.c.CAdvance? && !s.c.CCheckTailBlock? && !s.c.CLookNext?
    ensures StepFitsKind(s, ConsumerStep(s), kind)
  {
    hide ProducerTyped, StepCRead, StepCAdvance, StepCCheckTailBlock, StepCLookNext;
  }

  lemma ConsumerFits<T>(s: State<T>, kind: Kind)
    requires Typed(s) && WorksOn(s.c, kind)
    ensures StepFitsKind(s, ConsumerStep(s), kind)
  {
    hide StepFitsKind, ConsumerStep, WorksOn, Typed;
    if s.c.CRead? || s.c.CAdvance? || s.c.CCheckTailBlock? || s.c.CLookNext? { LastStepsFit(s, kind); } else { EarlierStepsFit(s, kind); }
  }

  lemma PopsSnoc<T>(kinds: seq<Kind>, pops: seq<PopOutcome<T>>, pops': seq<PopOutcome<T>>, c: Consumer<T>, c': Consumer<T>)
    requires PopsFit(kinds, pops, c) && !c.CIdle? && c'.CIdle?
    requires |pops'| == |pops| + 1 && pops'[..|pops|] == pops && KindFits(kinds[|pops|], pops'[|pops|])
    ensures PopsFit(kinds, pops', c')
  {
    assert forall i :: 0 <= i < |pops| ==> pops'[i] == pops[i];
  }

  // ------------------------------------------------------------------ the producer

  // try_enqueue never runs out of memory, and enqueue is never refused.
  predicate ModeFits(mode: bool, o: PushOutcome) {
    (o.Refused? ==> !mode) && (o.OutOfMemory? ==> mode)
  }

  predicate RunsIn<T>(p: Producer<T>, mode: bool) {
    match p
    case PIdle => false
    case PStart(_, m) => m == mode
    case PCheckFront(_, m, _, _) => m == mode
    case PCheckRing(_, m, _, _) => m == mode
    case PAlloc(_, _) => mode
    case PLink(_, _, _) => mode
    case _ => true
  }

  ghost predicate PushesFit<T>(modes: seq<bool>, pushes: seq<PushOutcome>, p: Producer<T>, memory: bool) {
    && |modes| == |pushes| + (if p.PIdle? then 0 else 1)
    && (forall i :: 0 <= i < |pushes| ==> ModeFits(modes[i], pushes[i]) && (memory ==> !pushes[i].OutOfMemory?))
    && (!p.PIdle? ==> RunsIn(p, modes[|pushes|]))
  }

  ghost predicate StepFitsMode<T>(s: State<T>, s': State<T>, mode: bool, allocOk: bool) {
    if s'.p.PIdle?
    then |s'.pushes| == |s.pushes| + 1 && s'.pushes[..|s.pushes|] == s.pushes && ModeFits(mode, s'.pushes[|s.pushes|]) &&
         (allocOk ==> !s'.pushes[|s.pushes|].OutOfMemory?)
    else s'.pushes == s.pushes && RunsIn(s'.p, mode)
  }

  lemma LastPushesFit<T>(s: State<T>, mode: bool, allocOk: bool)
    requires Typed(s) && RunsIn(s.p, mode) && (s.p.PPublish? || s.p.PCheckRing? || s.p.PMove? || s.p.PAlloc?)
    ensures StepFitsMode(s, ProducerStep(s, allocOk), mode, allocOk)
  {
    hide ConsumerTyped, StepPStart, StepPCheckFront, StepPWrite, StepPNextFront, StepPNextWrite, StepPNextTail, StepPLink;
  }

  lemma EarlierPushesFit<T>(s: State<T>, mode: bool, allocOk: bool)
    requires Typed(s) && RunsIn(s.p, mode) && !s.p.PPublish? && !s.p.PCheckRing? && !s.p.PMove? && !s.p.PAlloc?
    ensures StepFitsMode(s, ProducerStep(s, allocOk), mode, allocOk)
  {
    hide ConsumerTyped, StepPPublish, StepPCheckRing, StepPMove, StepPAlloc;
  }

  lemma ProducerFits<T>(s: State<T>, mode: bool, allocOk: bool)
    requires Typed(s) && RunsIn(s.p, mode)
    ensures StepFitsMode(s, ProducerStep(s, allocOk), mode, allocOk)
  {
    hide StepFitsMode, ProducerStep, RunsIn, Typed;
    if s.p.PPublish? || s.p.PCheckRing? || s.p.PMove? || s.p.PAlloc? { LastPushesFit(s, mode, allocOk); } else { EarlierPushesFit(s, mode, allocOk); }
  }

  lemma PushesSnoc<T>(modes: seq<bool>, pushes: seq<PushOutcome>, pushes': seq<PushOutcome>, p: Producer<T>, p': Producer<T>, memory: bool)
    requires PushesFit(modes, pushes, p, memory) && !p.PIdle? && p'.PIdle?
    requires |pushes'| == |pushes| + 1 && pushes'[..|pushes|] == pushes && ModeFits(modes[|pushes|], pushes'[|pushes|])
    requires memory ==> !pushes'[|pushes|].OutOfMemory?
    ensures PushesFit(modes, pushes', p', memory)
  {
    assert forall i :: 0 <= i < |pushes| ==> pushes'[i] == pushes[i];
  }

  // ------------------------------------------------------------------ one thread leaves the other alone

  lemma ProducerOnly<T>(s: State<T>, allocOk: bool)
    requires Typed(s)
    ensures var s' := ProducerStep(s, allocOk); s'.c == s.c && s'.pops == s.pops && s'.offered == s.offered && (s.p.PIdle? ==> s' == s)
  {
    hide ConsumerTyped;
  }

  lemma ConsumerOnly<T>(s: State<T>)
    requires Typed(s)
    ensures var s' := ConsumerStep(s); s'.p == s.p && s'.pushes == s.pushes && s'.offered == s.offered && (s.c.CIdle? ==> s' == s)
  {
    hide ProducerTyped;
  }

  // No allocation fails.
  ghost predicate Memory<T>(actions: seq<Action<T>>) {
    forall i :: 0 <= i < |actions| && actions[i].ProducerRuns? ==> actions[i].allocOk
  }

  // Before any call.
  predicate Fresh<T>(s: State<T>) {
    s.p.PIdle? && s.c.CIdle? && s.offered == [] && s.pushes == [] && s.pops == [] && s.accepted == [] && s.delivered == []
  }

  ghost predicate CallsFit<T>(s: State<T>, actions: seq<Action<T>>)
    requires Typed(s)
  {
    var s' := Run(s, actions);
    && s'.offered == Offers(s, actions)
    && PopsFit(Kinds(s, actions), s'.pops, s'.c)
    && PushesFit(Modes(s, actions), s'.pushes, s'.p, Memory(actions))
  }

  lemma StepFits<T>(s: State<T>, a: Action<T>, offers: seq<T>, modes: seq<bool>, kinds: seq<Kind>, memory: bool)
    requires Typed(s) && s.offered == offers && PopsFit(kinds, s.pops, s.c) && PushesFit(modes, s.pushes, s.p, memory)
    requires memory && a.ProducerRuns? ==> a.allocOk
    ensures var s' := Apply(s, a);
      && s'.offered == offers + (if a.CallEnqueue? && s.p.PIdle? then [a.x] else [])
      && PopsFit(kinds + (if a.CallDequeue? && s.c.CIdle? then [a.kind] else []), s'.pops, s'.c)
      && PushesFit(modes + (if a.CallEnqueue? && s.p.PIdle? then [a.canAlloc] else []), s'.pushes, s'.p, memory)
  {
    hide ProducerStep, ConsumerStep, Typed, KindFits, ModeFits;
    assert kinds + [] == kinds && modes + [] == modes && offers + [] == offers;
    match a {
      case CallEnqueue(_, _) =>
      case CallDequeue(_) =>
      case ProducerRuns(allocOk) =>
        ProducerOnly(s, allocOk);
        if !s.p.PIdle? {
          ProducerFits(s, modes[|s.pushes|], allocOk);
          var s' := ProducerStep(s, allocOk);
          if s'.p.PIdle? { PushesSnoc(modes, s.pushes, s'.pushes, s.p, s'.p, memory); }
        }
      case ConsumerRuns =>
        ConsumerOnly(s);
        if !s.c.CIdle? {
          ConsumerFits(s, kinds[|s.pops|]);
          var s' := ConsumerStep(s);
          if s'.c.CIdle? { PopsSnoc(kinds, s.pops, s'.pops, s.c, s'.c); }
        }
    }
  }

  lemma MemoryLess<T>(modes: seq<bool>, pushes: seq<PushOutcome>, p: Producer<T>, a: bool, b: bool)
    requires PushesFit(modes, pushes, p, a) && (b ==> a)
    ensures PushesFit(modes, pushes, p, b)
  {
  }

  // Over every run: the n-th enqueue has the n-th push outcome and the n-th dequeue the n-th pop
  // outcome, of its own kind. An enqueue that may allocate is never refused, and unless an
  // allocation fails it is accepted.
  lemma {:induction false} RunFits<T>(s: State<T>, actions: seq<Action<T>>)
    requires Typed(s) && Fresh(s)
    ensures CallsFit(s, actions)
    decreases |actions|
  {
    hide Apply, PopsFit, PushesFit, Typed;
    if actions == [] {
      NothingYet(s);
    } else {
      var m := |actions| - 1;
      var front := actions[..m];
      RunFits(s, front);
      var now := Run(s, front);
      assert Memory(actions) ==> Memory(front) && (actions[m].ProducerRuns? ==> actions[m].allocOk);
      MemoryLess(Modes(s, front), now.pushes, now.p, Memory(front), Memory(actions));
      StepFits(now, actions[m], Offers(s, front), Modes(s, front), Kinds(s, front), Memory(actions));
    }
  }

  lemma NothingYet<T>(s: State<T>)
    requires Fresh(s)
    ensures PopsFit([], s.pops, s.c) && PushesFit([], s.pushes, s.p, Memory<T>([]))
  {
  }

  // An enqueue that may allocate succeeds whenever no allocation fails.
  lemma EnqueueSucceeds<T>(s: State<T>, actions: seq<Action<T>>, i: nat)
    requires Typed(s) && Fresh(s) && Memory(actions)
    ensures var s' := Run(s, actions);
      i < |s'.pushes| ==> i < |Modes(s, actions)| && (Modes(s, actions)[i] ==> s'.pushes[i].Accepted?)
  {
    hide Run, Typed, Modes, Kinds, Offers;
    RunFits(s, actions);
    var s' := Run(s, actions);
    if i < |s'.pushes| { assert ModeFits(Modes(s, actions)[i], s'.pushes[i]); }
  }
}
