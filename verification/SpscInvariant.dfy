/**
 The invariant of the queue.

 `ring` lists the blocks of the circular list from the front block on, and `t` is the
 position of the tail block in it.  The blocks at 0..t are the arc that holds the queue.
 */
module SpscInvariant {
  import opened SpscBlocks
  import opened SpscQueue

  ghost predicate RingOk<T>(blocks: seq<Block<T>>, ring: seq<nat>) {
    && |ring| > 0
    && (forall i :: 0 <= i < |ring| ==> ring[i] < |blocks|)
    && (forall i, j :: 0 <= i < j < |ring| ==> ring[i] != ring[j])
    && (forall i :: 0 <= i < |ring| - 1 ==> blocks[ring[i]].next == ring[i + 1])
    && blocks[ring[|ring| - 1]].next == ring[0]
  }

  ghost predicate ShadowsOk<T>(blocks: seq<Block<T>>)
    requires BlocksTyped(blocks)
  {
    forall i :: 0 <= i < |blocks| ==> ShadowsLag(blocks[i])
  }

  // Blocks strictly between front and tail are full, every block after the front one up to the
  // tail is non-empty, and the blocks outside the arc are empty, except for the block that the
  // producer has filled with one element and is about to make the tail block.
  ghost predicate ArcOk<T>(blocks: seq<Block<T>>, ring: seq<nat>, t: nat, p: Producer<T>)
    requires BlocksTyped(blocks) && RingOk(blocks, ring) && t < |ring|
  {
    && (forall i :: 0 < i < t ==> Full(blocks[ring[i]]))
    && (forall i :: 0 < i <= t ==> Count(blocks[ring[i]]) > 0)
    && (forall i :: t < i < |ring| && !(p.PMove? && p.nxt == ring[i]) ==> Count(blocks[ring[i]]) == 0)
  }

  // The elements of the listed blocks, in order.
  ghost function Join<T>(blocks: seq<Block<T>>, ids: seq<nat>): (q: seq<T>)
    requires BlocksTyped(blocks)
    requires forall i :: 0 <= i < |ids| ==> ids[i] < |blocks|
  {
    if ids == [] then [] else Contents(blocks[ids[0]]) + Join(blocks, ids[1..])
  }

  // The queue that the representation stands for.
  ghost function Queue<T>(blocks: seq<Block<T>>, ring: seq<nat>, t: nat): (q: seq<T>)
    requires BlocksTyped(blocks) && RingOk(blocks, ring) && t < |ring|
  {
    Join(blocks, ring[..t + 1])
  }

  // The number of elements that fit into the listed blocks.
  ghost function Room<T>(blocks: seq<Block<T>>, ids: seq<nat>): (n: nat)
    requires BlocksTyped(blocks)
    requires forall i :: 0 <= i < |ids| ==> ids[i] < |blocks|
  {
    if ids == [] then 0 else blocks[ids[0]].size - 1 + Room(blocks, ids[1..])
  }

  // The number of elements that are certainly accepted without allocation: one block may be
  // unusable because the consumer is still in it, unless it is the only one.
  ghost function Capacity<T>(blocks: seq<Block<T>>, ring: seq<nat>): (n: nat)
    requires BlocksTyped(blocks) && RingOk(blocks, ring)
  {
    if |ring| == 1 then Room(blocks, ring) else Room(blocks, ring[1..])
  }

  ghost predicate ProducerOk<T>(s: State<T>, ring: seq<nat>, t: nat)
    requires Typed(s) && RingOk(s.blocks, ring) && t < |ring|
  {
    var tailDone := t == 0 || Full(s.blocks[s.tailBlock]);
    match s.p
    case PIdle => true
    case PStart(_, _) => true
    case PCheckFront(_, _, b, tail) => b == s.tailBlock && tail == s.blocks[b].tail
    case PWrite(_, b, tail) => b == s.tailBlock && tail == s.blocks[b].tail && ShadowHasRoom(s.blocks[b])
    case PPublish(x, b, tail) =>
      && b == s.tailBlock && tail == s.blocks[b].tail && ShadowHasRoom(s.blocks[b])
      && s.blocks[b].data[tail] == x
    case PCheckRing(_, _, b, present) =>
      b == s.tailBlock && tailDone && (t == |ring| - 1 ==> present >= Capacity(s.blocks, ring))
    case PNextFront(_, n) => t + 1 < |ring| && n == ring[t + 1] && tailDone
    case PNextWrite(_, n, front) => t + 1 < |ring| && n == ring[t + 1] && tailDone && front == s.blocks[n].front
    case PNextTail(x, n, tail) =>
      && t + 1 < |ring| && n == ring[t + 1] && tailDone && tail == s.blocks[n].tail
      && s.blocks[n].data[tail] == x && ShadowHasRoom(s.blocks[n])
    case PMove(x, n) => t + 1 < |ring| && n == ring[t + 1] && tailDone && Contents(s.blocks[n]) == [x]
    case PAlloc(_, b) => b == s.tailBlock && tailDone
    case PLink(x, b, n) =>
      b == s.tailBlock && tailDone && n !in ring && s.blocks[n].next == s.blocks[b].next && Contents(s.blocks[n]) == [x]
    case PFailed => false
  }

  ghost predicate ConsumerOk<T>(s: State<T>, ring: seq<nat>, t: nat)
    requires Typed(s) && RingOk(s.blocks, ring) && t < |ring|
  {
    match s.c
    case CIdle => true
    case CStart(_) => true
    case CCheckTail(_, b, front) => b == s.frontBlock && front == s.blocks[b].front
    case CRead(_, b, front) => b == s.frontBlock && front == s.blocks[b].front && s.blocks[b].localTail != front
    case CAdvance(b, front, v) =>
      b == s.frontBlock && front == s.blocks[b].front && s.blocks[b].localTail != front && s.blocks[b].data[front] == v
    case CCheckTailBlock(_, b, wasEmpty) => b == s.frontBlock && (t == 0 ==> wasEmpty)
    case CRecheck(_) => t > 0
    case CNext(_, b) => b == s.frontBlock && t > 0 && Count(s.blocks[b]) == 0
    case CNextTail(_, n) => t > 0 && n == ring[1] && Count(s.blocks[s.frontBlock]) == 0
    case CMoveFront(n, front) =>
      && t > 0 && n == ring[1] && Count(s.blocks[s.frontBlock]) == 0
      && front == s.blocks[n].front && s.blocks[n].localTail != front
    case CLookNext(n, front) =>
      t > 0 && n == ring[1] && Count(s.blocks[s.frontBlock]) == 0 && front == s.blocks[n].front
    case CFailed => false
  }

  // What every completed call has reported.
  ghost predicate LogsOk<T>(pops: seq<PopOutcome<T>>, accepted: seq<T>) {
    && (forall i :: 0 <= i < |pops| && pops[i].Empty? ==> pops[i].wasEmpty)
    && (forall i :: 0 <= i < |pops| && pops[i].Peeked? ==>
          pops[i].index < |accepted| && accepted[pops[i].index] == pops[i].value)
  }

  // The shape of the ring and of its blocks.
  ghost predicate Shape<T>(s: State<T>, ring: seq<nat>, t: nat) {
    && Typed(s) && RingOk(s.blocks, ring) && t < |ring|
    && ring[0] == s.frontBlock && ring[t] == s.tailBlock
    && ShadowsOk(s.blocks)
    && ArcOk(s.blocks, ring, t, s.p)
  }

  ghost predicate Inv<T>(s: State<T>, ring: seq<nat>, t: nat) {
    && Shape(s, ring, t)
    && ProducerOk(s, ring, t) && ConsumerOk(s, ring, t)
    && s.accepted == s.delivered + Queue(s.blocks, ring, t)
    && LogsOk(s.pops, s.accepted)
  }

  // ------------------------------------------------------------------ lists of blocks

  lemma {:induction false} JoinFrame<T>(a: seq<Block<T>>, b: seq<Block<T>>, ids: seq<nat>)
    requires BlocksTyped(a) && BlocksTyped(b)
    requires forall i :: 0 <= i < |ids| ==> ids[i] < |a| && ids[i] < |b| && Contents(a[ids[i]]) == Contents(b[ids[i]])
    ensures Join(a, ids) == Join(b, ids)
  {
    if ids != [] { JoinFrame(a, b, ids[1..]); }
  }

  lemma {:induction false} JoinConcat<T>(blocks: seq<Block<T>>, xs: seq<nat>, ys: seq<nat>)
    requires BlocksTyped(blocks)
    requires forall i :: 0 <= i < |xs| ==> xs[i] < |blocks|
    requires forall i :: 0 <= i < |ys| ==> ys[i] < |blocks|
    ensures Join(blocks, xs + ys) == Join(blocks, xs) + Join(blocks, ys)
  {
    if xs == [] {
      assert xs + ys == ys;
    } else {
      assert (xs + ys)[1..] == xs[1..] + ys;
      JoinConcat(blocks, xs[1..], ys);
    }
  }

  lemma {:induction false} RoomFrame<T>(a: seq<Block<T>>, b: seq<Block<T>>, ids: seq<nat>)
    requires BlocksTyped(a) && BlocksTyped(b)
    requires forall i :: 0 <= i < |ids| ==> ids[i] < |a| && ids[i] < |b| && a[ids[i]].size == b[ids[i]].size
    ensures Room(a, ids) == Room(b, ids)
  {
    if ids != [] { RoomFrame(a, b, ids[1..]); }
  }

  // Blocks that are all full hold exactly as much as they have room for.
  lemma {:induction false} FullJoin<T>(blocks: seq<Block<T>>, ids: seq<nat>)
    requires BlocksTyped(blocks)
    requires forall i :: 0 <= i < |ids| ==> ids[i] < |blocks| && Full(blocks[ids[i]])
    ensures |Join(blocks, ids)| == Room(blocks, ids)
  {
    if ids != [] { FullJoin(blocks, ids[1..]); }
  }

  // The queue is the front block followed by the rest of the arc.
  lemma QueueFront<T>(blocks: seq<Block<T>>, ring: seq<nat>, t: nat)
    requires BlocksTyped(blocks) && RingOk(blocks, ring) && t < |ring|
    ensures Queue(blocks, ring, t) == Contents(blocks[ring[0]]) + Join(blocks, ring[1..t + 1])
  {
    assert ring[..t + 1][1..] == ring[1..t + 1];
  }

  // The queue is the arc before the tail block followed by the tail block.
  lemma QueueBack<T>(blocks: seq<Block<T>>, ring: seq<nat>, t: nat)
    requires BlocksTyped(blocks) && RingOk(blocks, ring) && t < |ring|
    ensures Queue(blocks, ring, t) == Join(blocks, ring[..t]) + Contents(blocks[ring[t]])
  {
    assert ring[..t + 1] == ring[..t] + [ring[t]];
    JoinConcat(blocks, ring[..t], [ring[t]]);
    assert Join(blocks, [ring[t]]) == Contents(blocks[ring[t]]);
  }
}
