/**
 The lock-free queue as a transition system of two threads.

 One `Producer` value and one `Consumer` value hold the program counter and the local
 variables of the two threads.  Every load of a variable that the other thread writes and
 every store to a variable that the other thread reads is a step of its own; loads of
 variables that only the running thread writes are folded into the next such access.
 The fences of the source are there to make this sequentially consistent reading valid.

 A run is any sequence of `Action`s, that is, any interleaving of the two threads with any
 sequence of calls and any pattern of allocation failures.
 */
module SpscQueue {
  import opened SpscBlocks

  // What the calls returned.  `present` and `wasEmpty` record the number of elements whose
  // insertion has completed and whose removal has not, at a moment inside the call.
  datatype PushOutcome = Accepted | Refused(present: int) | OutOfMemory
  datatype PopOutcome<T> = Delivered(value: T) | Peeked(value: T, index: nat) | Empty(wasEmpty: bool)

  // try_dequeue (and pop, which only drops the value) or peek
  datatype Kind = Take | Look

  datatype Producer<T> =
    | PIdle
    | PStart(x: T, canAlloc: bool)
    | PCheckFront(x: T, canAlloc: bool, block: nat, tail: nat)
    | PWrite(x: T, block: nat, tail: nat)
    | PPublish(x: T, block: nat, tail: nat)
    | PCheckRing(x: T, canAlloc: bool, block: nat, present: int)
    | PNextFront(x: T, nxt: nat)
    | PNextWrite(x: T, nxt: nat, nextFront: nat)
    | PNextTail(x: T, nxt: nat, nextTail: nat)
    | PMove(x: T, nxt: nat)
    | PAlloc(x: T, block: nat)
    | PLink(x: T, block: nat, added: nat)
    | PFailed  // an assertion of the source does not hold

  datatype Consumer<T> =
    | CIdle
    | CStart(kind: Kind)
    | CCheckTail(kind: Kind, block: nat, front: nat)
    | CRead(kind: Kind, block: nat, front: nat)
    | CAdvance(block: nat, front: nat, value: T)
    | CCheckTailBlock(kind: Kind, block: nat, wasEmpty: bool)
    | CRecheck(kind: Kind)
    | CNext(kind: Kind, block: nat)
    | CNextTail(kind: Kind, nxt: nat)
    | CMoveFront(nxt: nat, nextFront: nat)
    | CLookNext(nxt: nat, nextFront: nat)
    | CFailed  // an assertion of the source does not hold

  datatype Action<T> =
    | CallEnqueue(x: T, canAlloc: bool)
    | CallDequeue(kind: Kind)
    | ProducerRuns(allocOk: bool)
    | ConsumerRuns

  datatype State<T> = State(
    blocks: seq<Block<T>>,
    frontBlock: nat,
    tailBlock: nat,
    largest: nat,
    maxBlock: nat,   // MAX_BLOCK_SIZE
    junk: T,         // contents of raw storage
    p: Producer<T>,
    c: Consumer<T>,
    offered: seq<T>,    // arguments of the enqueue calls made so far
    accepted: seq<T>,   // elements whose insertion has completed
    delivered: seq<T>,  // elements whose removal has completed
    pushes: seq<PushOutcome>,
    pops: seq<PopOutcome<T>>)

  predicate ProducerTyped<T>(s: State<T>) {
    match s.p
    case PIdle => true
    case PStart(_, _) => true
    case PCheckFront(_, _, b, tail) => b < |s.blocks| && tail < s.blocks[b].size
    case PWrite(_, b, tail) => b < |s.blocks| && tail < s.blocks[b].size
    case PPublish(_, b, tail) => b < |s.blocks| && tail < s.blocks[b].size
    case PCheckRing(_, _, b, _) => b < |s.blocks|
    case PNextFront(_, n) => n < |s.blocks|
    case PNextWrite(_, n, front) => n < |s.blocks| && front < s.blocks[n].size
    case PNextTail(_, n, tail) => n < |s.blocks| && tail < s.blocks[n].size
    case PMove(_, n) => n < |s.blocks|
    case PAlloc(_, b) => b < |s.blocks|
    case PLink(_, b, n) => b < |s.blocks| && n < |s.blocks|
    case PFailed => true
  }

  predicate ConsumerTyped<T>(s: State<T>) {
    match s.c
    case CIdle => true
    case CStart(_) => true
    case CCheckTail(_, b, front) => b < |s.blocks| && front < s.blocks[b].size
    case CRead(_, b, front) => b < |s.blocks| && front < s.blocks[b].size
    case CAdvance(b, front, _) => b < |s.blocks| && front < s.blocks[b].size
    case CCheckTailBlock(_, b, _) => b < |s.blocks|
    case CRecheck(_) => true
    case CNext(_, b) => b < |s.blocks|
    case CNextTail(_, n) => n < |s.blocks|
    case CMoveFront(n, front) => n < |s.blocks| && front < s.blocks[n].size
    case CLookNext(n, front) => n < |s.blocks| && front < s.blocks[n].size
    case CFailed => true
  }

  predicate BlocksTyped<T>(blocks: seq<Block<T>>) {
    forall i :: 0 <= i < |blocks| ==> Shaped(blocks[i]) && blocks[i].next < |blocks|
  }

  // Pointers point to blocks and indices are in range; nothing more.
  predicate Typed<T>(s: State<T>) {
    && BlocksTyped(s.blocks)
    && s.frontBlock < |s.blocks| && s.tailBlock < |s.blocks|
    && 2 <= s.largest && 2 <= s.maxBlock
    && ProducerTyped(s) && ConsumerTyped(s)
  }

  function MakeBlock<T>(size: nat, next: nat, junk: T): (b: Block<T>)
    requires 2 <= size
    ensures Shaped(b) && Contents(b) == []
  {
    Block(0, 0, 0, 0, next, size, seq(size, _ => junk))
  }

  // A new block that already holds x.
  function MakeBlockWith<T>(size: nat, next: nat, junk: T, x: T): (b: Block<T>)
    requires 2 <= size
    ensures Shaped(b) && Contents(b) == [x]
  {
    var data := seq(size, _ => junk);
    Block(0, 1, 1, 0, next, size, data[0 := x])
  }

  // Elements whose insertion has completed and whose removal has not.
  function Present<T>(s: State<T>): int {
    |s.accepted| - |s.delivered|
  }

  // One step of inner_enqueue.
  function StepPStart<T>(s: State<T>): (s': State<T>)
    requires Typed(s) && s.p.PStart?
    ensures Typed(s')
  {
    var PStart(x, canAlloc) := s.p;
    var b := s.blocks[s.tailBlock];
    if Inc(b.tail, b.size) != b.localFront
    then s.(p := PWrite(x, s.tailBlock, b.tail))
    else s.(p := PCheckFront(x, canAlloc, s.tailBlock, b.tail))
  }

  function StepPCheckFront<T>(s: State<T>): (s': State<T>)
    requires Typed(s) && s.p.PCheckFront?
    ensures Typed(s')
  {
    var PCheckFront(x, canAlloc, block, tail) := s.p;
    var b := s.blocks[block];
    var t := s.(blocks := s.blocks[block := b.(localFront := b.front)]);
    if Inc(tail, b.size) != b.front
    then t.(p := PWrite(x, block, tail))
    else t.(p := PCheckRing(x, canAlloc, block, Present(s)))
  }

  function StepPWrite<T>(s: State<T>): (s': State<T>)
    requires Typed(s) && s.p.PWrite?
    ensures Typed(s')
  {
    var PWrite(x, block, tail) := s.p;
    var b := s.blocks[block];
    s.(blocks := s.blocks[block := b.(data := b.data[tail := x])], p := PPublish(x, block, tail))
  }

  function StepPPublish<T>(s: State<T>): (s': State<T>)
    requires Typed(s) && s.p.PPublish?
    ensures Typed(s')
  {
    var PPublish(x, block, tail) := s.p;
    var b := s.blocks[block];
    s.(blocks := s.blocks[block := b.(tail := Inc(tail, b.size))], p := PIdle,
       accepted := s.accepted + [x], pushes := s.pushes + [Accepted])
  }

  function StepPCheckRing<T>(s: State<T>): (s': State<T>)
    requires Typed(s) && s.p.PCheckRing?
    ensures Typed(s')
  {
    var PCheckRing(x, canAlloc, block, present) := s.p;
    if s.blocks[block].next != s.frontBlock then s.(p := PNextFront(x, s.blocks[block].next))
    else if canAlloc then s.(p := PAlloc(x, block))
    else s.(p := PIdle, pushes := s.pushes + [Refused(present)])
  }

  function StepPNextFront<T>(s: State<T>): (s': State<T>)
    requires Typed(s) && s.p.PNextFront?
    ensures Typed(s')
  {
    var PNextFront(x, nxt) := s.p;
    var n := s.blocks[nxt];
    s.(blocks := s.blocks[nxt := n.(localFront := n.front)], p := PNextWrite(x, nxt, n.front))
  }

  function StepPNextWrite<T>(s: State<T>): (s': State<T>)
    requires Typed(s) && s.p.PNextWrite?
    ensures Typed(s')
  {
    var PNextWrite(x, nxt, nextFront) := s.p;
    var n := s.blocks[nxt];
    if nextFront != n.tail then s.(p := PFailed)
    else s.(blocks := s.blocks[nxt := n.(localFront := nextFront, data := n.data[n.tail := x])],
            p := PNextTail(x, nxt, n.tail))
  }

  function StepPNextTail<T>(s: State<T>): (s': State<T>)
    requires Typed(s) && s.p.PNextTail?
    ensures Typed(s')
  {
    var PNextTail(x, nxt, nextTail) := s.p;
    var n := s.blocks[nxt];
    s.(blocks := s.blocks[nxt := n.(tail := Inc(nextTail, n.size))], p := PMove(x, nxt))
  }

  function StepPMove<T>(s: State<T>): (s': State<T>)
    requires Typed(s) && s.p.PMove?
    ensures Typed(s')
  {
    var PMove(x, nxt) := s.p;
    s.(tailBlock := nxt, p := PIdle, accepted := s.accepted + [x], pushes := s.pushes + [Accepted])
  }

  function StepPAlloc<T>(s: State<T>, allocOk: bool): (s': State<T>)
    requires Typed(s) && s.p.PAlloc?
    ensures Typed(s')
  {
    var PAlloc(x, block) := s.p;
    if !allocOk then s.(p := PIdle, pushes := s.pushes + [OutOfMemory]) else
    var size := if s.largest >= s.maxBlock then s.largest else s.largest * 2;
    s.(blocks := s.blocks + [MakeBlockWith(size, s.blocks[block].next, s.junk, x)],
       largest := size, p := PLink(x, block, |s.blocks|))
  }

  function StepPLink<T>(s: State<T>): (s': State<T>)
    requires Typed(s) && s.p.PLink?
    ensures Typed(s')
  {
    var PLink(x, block, added) := s.p;
    var b := s.blocks[block];
    s.(blocks := s.blocks[block := b.(next := added)], p := PMove(x, added))
  }

  function ProducerStep<T>(s: State<T>, allocOk: bool): (s': State<T>)
    requires Typed(s)
    ensures Typed(s')
  {
    match s.p
    case PIdle => s
    case PFailed => s
    case PStart(_, _) => StepPStart(s)
    case PCheckFront(_, _, _, _) => StepPCheckFront(s)
    case PWrite(_, _, _) => StepPWrite(s)
    case PPublish(_, _, _) => StepPPublish(s)
    case PCheckRing(_, _, _, _) => StepPCheckRing(s)
    case PNextFront(_, _) => StepPNextFront(s)
    case PNextWrite(_, _, _) => StepPNextWrite(s)
    case PNextTail(_, _, _) => StepPNextTail(s)
    case PMove(_, _) => StepPMove(s)
    case PAlloc(_, _) => StepPAlloc(s, allocOk)
    case PLink(_, _, _) => StepPLink(s)
  }

  // One step of try_dequeue, pop or peek.
  function StepCStart<T>(s: State<T>): (s': State<T>)
    requires Typed(s) && s.c.CStart?
    ensures Typed(s')
  {
    var CStart(kind) := s.c;
    var b := s.blocks[s.frontBlock];
    if b.front != b.localTail
    then s.(c := CRead(kind, s.frontBlock, b.front))
    else s.(c := CCheckTail(kind, s.frontBlock, b.front))
  }

  function StepCCheckTail<T>(s: State<T>): (s': State<T>)
    requires Typed(s) && s.c.CCheckTail?
    ensures Typed(s')
  {
    var CCheckTail(kind, block, front) := s.c;
    var b := s.blocks[block];
    var t := s.(blocks := s.blocks[block := b.(localTail := b.tail)]);
    if front != b.tail
    then t.(c := CRead(kind, block, front))
    else t.(c := CCheckTailBlock(kind, block, Present(s) == 0))
  }

  function StepCRead<T>(s: State<T>): (s': State<T>)
    requires Typed(s) && s.c.CRead?
    ensures Typed(s')
  {
    var CRead(kind, block, front) := s.c;
    var v := s.blocks[block].data[front];
    if kind == Take then s.(c := CAdvance(block, front, v))
    else s.(c := CIdle, pops := s.pops + [Peeked(v, |s.delivered|)])
  }

  function StepCAdvance<T>(s: State<T>): (s': State<T>)
    requires Typed(s) && s.c.CAdvance?
    ensures Typed(s')
  {
    var CAdvance(block, front, value) := s.c;
    var b := s.blocks[block];
    s.(blocks := s.blocks[block := b.(front := Inc(front, b.size))], c := CIdle,
       delivered := s.delivered + [value], pops := s.pops + [Delivered(value)])
  }

  function StepCCheckTailBlock<T>(s: State<T>): (s': State<T>)
    requires Typed(s) && s.c.CCheckTailBlock?
    ensures Typed(s')
  {
    var CCheckTailBlock(kind, block, wasEmpty) := s.c;
    if block != s.tailBlock then s.(c := CRecheck(kind))
    else s.(c := CIdle, pops := s.pops + [Empty(wasEmpty)])
  }

  function StepCRecheck<T>(s: State<T>): (s': State<T>)
    requires Typed(s) && s.c.CRecheck?
    ensures Typed(s')
  {
    var CRecheck(kind) := s.c;
    var b := s.blocks[s.frontBlock];
    var t := s.(blocks := s.blocks[s.frontBlock := b.(localTail := b.tail)]);
    if b.front != b.tail
    then t.(c := CRead(kind, s.frontBlock, b.front))
    else t.(c := CNext(kind, s.frontBlock))
  }

  function StepCNext<T>(s: State<T>): (s': State<T>)
    requires Typed(s) && s.c.CNext?
    ensures Typed(s')
  {
    var CNext(kind, block) := s.c;
    s.(c := CNextTail(kind, s.blocks[block].next))
  }

  function StepCNextTail<T>(s: State<T>): (s': State<T>)
    requires Typed(s) && s.c.CNextTail?
    ensures Typed(s')
  {
    var CNextTail(kind, nxt) := s.c;
    var n := s.blocks[nxt];
    if n.front == n.tail then s.(c := CFailed)
    else if kind == Look then s.(c := CLookNext(nxt, n.front))
    else s.(blocks := s.blocks[nxt := n.(localTail := n.tail)], c := CMoveFront(nxt, n.front))
  }

  function StepCMoveFront<T>(s: State<T>): (s': State<T>)
    requires Typed(s) && s.c.CMoveFront?
    ensures Typed(s')
  {
    var CMoveFront(nxt, nextFront) := s.c;
    s.(frontBlock := nxt, c := CRead(Take, nxt, nextFront))
  }

  function StepCLookNext<T>(s: State<T>): (s': State<T>)
    requires Typed(s) && s.c.CLookNext?
    ensures Typed(s')
  {
    var CLookNext(nxt, nextFront) := s.c;
    s.(c := CIdle, pops := s.pops + [Peeked(s.blocks[nxt].data[nextFront], |s.delivered|)])
  }

  function ConsumerStep<T>(s: State<T>): (s': State<T>)
    requires Typed(s)
    ensures Typed(s')
  {
    match s.c
    case CIdle => s
    case CFailed => s
    case CStart(_) => StepCStart(s)
    case CCheckTail(_, _, _) => StepCCheckTail(s)
    case CRead(_, _, _) => StepCRead(s)
    case CAdvance(_, _, _) => StepCAdvance(s)
    case CCheckTailBlock(_, _, _) => StepCCheckTailBlock(s)
    case CRecheck(_) => StepCRecheck(s)
    case CNext(_, _) => StepCNext(s)
    case CNextTail(_, _) => StepCNextTail(s)
    case CMoveFront(_, _) => StepCMoveFront(s)
    case CLookNext(_, _) => StepCLookNext(s)
  }

  // A call is accepted only by an idle thread, as the re-entrancy guards demand.
  function Apply<T>(s: State<T>, a: Action<T>): (s': State<T>)
    requires Typed(s)
    ensures Typed(s')
  {
    match a
    case CallEnqueue(x, canAlloc) => if s.p.PIdle? then s.(p := PStart(x, canAlloc), offered := s.offered + [x]) else s
    case CallDequeue(kind) => if s.c.CIdle? then s.(c := CStart(kind)) else s
    case ProducerRuns(allocOk) => ProducerStep(s, allocOk)
    case ConsumerRuns => ConsumerStep(s)
  }

  function Run<T>(s: State<T>, actions: seq<Action<T>>): (s': State<T>)
    requires Typed(s)
    ensures Typed(s')
    decreases |actions|
  {
    if actions == [] then s
    else Apply(Run(s, actions[..|actions| - 1]), actions[|actions| - 1])
  }
}
