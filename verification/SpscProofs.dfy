/** Every step of either thread keeps the invariant. */
module SpscProofs {
  import opened SpscBlocks
  import opened SpscQueue
  import opened SpscInvariant

  // ------------------------------------------------------------------ stores into one block

  lemma StoreKeepsRing<T>(a: seq<Block<T>>, k: nat, b: Block<T>, ring: seq<nat>)
    requires BlocksTyped(a) && RingOk(a, ring)
    requires k < |a| && Shaped(b) && b.next == a[k].next
    ensures BlocksTyped(a[k := b]) && RingOk(a[k := b], ring)
  {
  }

  // A store that changes neither the elements nor the links leaves the queue as it was.
  lemma StoreKeepsQueue<T>(a: seq<Block<T>>, k: nat, b: Block<T>, ring: seq<nat>, t: nat)
    requires BlocksTyped(a) && RingOk(a, ring) && t < |ring|
    requires k < |a| && Shaped(b) && Contents(b) == Contents(a[k]) && b.next == a[k].next
    ensures BlocksTyped(a[k := b]) && RingOk(a[k := b], ring)
    ensures Queue(a[k := b], ring, t) == Queue(a, ring, t)
  {
    StoreKeepsRing(a, k, b, ring);
    JoinFrame(a, a[k := b], ring[..t + 1]);
  }

  // A store into a block outside the arc leaves the queue as it was.
  lemma StoreBeyondArc<T>(a: seq<Block<T>>, i: nat, b: Block<T>, ring: seq<nat>, t: nat)
    requires BlocksTyped(a) && RingOk(a, ring) && t < i < |ring|
    requires Shaped(b) && b.next == a[ring[i]].next
    ensures BlocksTyped(a[ring[i] := b]) && RingOk(a[ring[i] := b], ring)
    ensures Queue(a[ring[i] := b], ring, t) == Queue(a, ring, t)
  {
    StoreKeepsRing(a, ring[i], b, ring);
    JoinFrame(a, a[ring[i] := b], ring[..t + 1]);
  }

  lemma StoreKeepsCapacity<T>(a: seq<Block<T>>, k: nat, b: Block<T>, ring: seq<nat>)
    requires BlocksTyped(a) && RingOk(a, ring)
    requires k < |a| && Shaped(b) && b.next == a[k].next && b.size == a[k].size
    ensures BlocksTyped(a[k := b]) && RingOk(a[k := b], ring)
    ensures Capacity(a[k := b], ring) == Capacity(a, ring)
  {
    StoreKeepsRing(a, k, b, ring);
    if |ring| == 1 { RoomFrame(a, a[k := b], ring); } else { RoomFrame(a, a[k := b], ring[1..]); }
  }

  // A store into the block at position i keeps the shape if the new block fits its position.
  lemma StoreKeepsShape<T>(s: State<T>, s': State<T>, ring: seq<nat>, t: nat, i: nat, b: Block<T>)
    requires Shape(s, ring, t) && Typed(s')
    requires i < |ring| && s'.blocks == s.blocks[ring[i] := b]
    requires s'.frontBlock == s.frontBlock && s'.tailBlock == s.tailBlock
    requires !s.p.PMove? || s'.p == s.p
    requires b.next == s.blocks[ring[i]].next && Shaped(b) && ShadowsLag(b)
    requires 0 < i < t ==> Full(b)
    requires 0 < i <= t ==> Count(b) > 0
    requires t < i && !(s'.p.PMove? && s'.p.nxt == ring[i]) ==> Count(b) == 0
    ensures Shape(s', ring, t)
  {
    StoreKeepsRing(s.blocks, ring[i], b, ring);
  }

  // The facts the consumer relies on survive a step of the producer.
  lemma ConsumerKept<T>(s: State<T>, s': State<T>, ring: seq<nat>, t: nat, ring': seq<nat>, t': nat)
    requires Shape(s, ring, t) && ConsumerOk(s, ring, t)
    requires Typed(s') && RingOk(s'.blocks, ring') && t <= t' < |ring'|
    requires s'.c == s.c && s'.frontBlock == s.frontBlock && |s.blocks| <= |s'.blocks|
    requires t > 0 ==> ring'[1] == ring[1] && s'.blocks[s.frontBlock] == s.blocks[s.frontBlock]
    requires forall i :: 0 <= i < |ring| && i <= 1 ==>
      var b, b' := s.blocks[ring[i]], s'.blocks[ring[i]];
      && b'.front == b.front && b'.localTail == b.localTail && b'.size == b.size
      && (Count(b) > 0 ==> b'.data[b.front] == b.data[b.front])
    ensures ConsumerOk(s', ring', t')
  {
    assert ShadowsLag(s.blocks[ring[0]]);
    if t > 0 { assert ShadowsLag(s.blocks[ring[1]]); }
    match s.c {
      case CIdle =>
      case CStart(_) =>
      case CCheckTail(_, b, _) => assert b == ring[0];
      case CRead(_, b, _) => assert b == ring[0];
      case CAdvance(b, _, _) => assert b == ring[0];
      case CCheckTailBlock(_, _, _) =>
      case CRecheck(_) =>
      case CNext(_, _) =>
      case CNextTail(_, _) =>
      case CMoveFront(n, _) => assert n == ring[1];
      case CLookNext(n, _) => assert n == ring[1];
    }
  }

  // ------------------------------------------------------------------ the producer

  lemma StartOk<T>(s: State<T>, ring: seq<nat>, t: nat)
    requires Inv(s, ring, t) && s.p.PStart?
    ensures Inv(StepPStart(s), ring, t)
  {
    hide ConsumerOk, LogsOk, Queue, Capacity, ShadowsOk;
    ConsumerKept(s, StepPStart(s), ring, t, ring, t);
  }

  lemma CheckFrontOk<T>(s: State<T>, ring: seq<nat>, t: nat)
    requires Inv(s, ring, t) && s.p.PCheckFront?
    ensures Inv(StepPCheckFront(s), ring, t)
  {
    hide ConsumerOk, LogsOk, Queue, Capacity;
    var s' := StepPCheckFront(s);
    var b := s.blocks[s.tailBlock];
    var b' := b.(localFront := b.front);
    assert Contents(b') == Contents(b);
    StoreKeepsQueue(s.blocks, s.tailBlock, b', ring, t);
    StoreKeepsCapacity(s.blocks, s.tailBlock, b', ring);
    StoreKeepsShape(s, s', ring, t, t, b');
    ConsumerKept(s, s', ring, t, ring, t);
    if Full(b) && t == |ring| - 1 {
      FullQueue(s, ring, t);
    }
  }

  // When the tail block is full and the producer has caught up with the front block, the
  // queue holds at least Capacity elements.
  lemma FullQueue<T>(s: State<T>, ring: seq<nat>, t: nat)
    requires Shape(s, ring, t) && t == |ring| - 1 && Full(s.blocks[s.tailBlock])
    ensures |Queue(s.blocks, ring, t)| >= Capacity(s.blocks, ring)
  {
    assert ring[..t + 1] == ring;
    if t == 0 {
      FullJoin(s.blocks, ring);
    } else {
      FullJoin(s.blocks, ring[1..]);
      QueueFront(s.blocks, ring, t);
      assert ring[1..t + 1] == ring[1..];
    }
  }

  lemma WriteOk<T>(s: State<T>, ring: seq<nat>, t: nat)
    requires Inv(s, ring, t) && s.p.PWrite?
    ensures Inv(StepPWrite(s), ring, t)
  {
    hide ConsumerOk, LogsOk, Queue, Capacity, Contents;
    var s' := StepPWrite(s);
    var b := s.blocks[s.tailBlock];
    var b' := b.(data := b.data[b.tail := s.p.x]);
    ShadowRoom(b);
    Push(b, s.p.x);
    StoreKeepsQueue(s.blocks, s.tailBlock, b', ring, t);
    StoreKeepsShape(s, s', ring, t, t, b');
    ConsumerKept(s, s', ring, t, ring, t);
  }

  lemma PublishOk<T>(s: State<T>, ring: seq<nat>, t: nat)
    requires Inv(s, ring, t) && s.p.PPublish?
    ensures Inv(StepPPublish(s), ring, t)
  {
    hide ConsumerOk, ConsumerTyped, Queue, Capacity, Contents, ArcOk;
    var s' := StepPPublish(s);
    var b := s.blocks[s.tailBlock];
    var b' := b.(tail := Inc(b.tail, b.size));
    ShadowRoom(b);
    Push(b, s.p.x);
    assert b.data[b.tail := s.p.x] == b.data;
    StoreKeepsShape(s, s', ring, t, t, b');
    ConsumerKept(s, s', ring, t, ring, t);
    QueueBack(s.blocks, ring, t);
    QueueBack(s'.blocks, ring, t);
    JoinFrame(s.blocks, s'.blocks, ring[..t]);
  }

  lemma CheckRingOk<T>(s: State<T>, ring: seq<nat>, t: nat)
    requires Inv(s, ring, t) && s.p.PCheckRing?
    ensures Inv(StepPCheckRing(s), ring, t)
  {
    hide ConsumerOk, LogsOk, Queue, Capacity, ShadowsOk;
    OnlyLastWraps(s.blocks, ring, t);
    ConsumerKept(s, StepPCheckRing(s), ring, t, ring, t);
  }

  // Only the last block of the ring points back to the front block.
  lemma OnlyLastWraps<T>(a: seq<Block<T>>, ring: seq<nat>, t: nat)
    requires RingOk(a, ring) && t < |ring|
    ensures a[ring[t]].next == ring[0] <==> t == |ring| - 1
  {
    if t < |ring| - 1 { assert ring[0] != ring[t + 1]; }
  }

  // The refusal of try_enqueue reports a moment at which the queue held Capacity elements.
  lemma RefusedMeansFull<T>(s: State<T>, ring: seq<nat>, t: nat)
    requires Inv(s, ring, t) && s.p.PCheckRing? && s.blocks[s.p.block].next == s.frontBlock
    ensures s.p.present >= Capacity(s.blocks, ring)
  {
    OnlyLastWraps(s.blocks, ring, t);
  }

  lemma NextFrontOk<T>(s: State<T>, ring: seq<nat>, t: nat)
    requires Inv(s, ring, t) && s.p.PNextFront?
    ensures Inv(StepPNextFront(s), ring, t)
  {
    hide ConsumerOk, LogsOk, Queue, Capacity;
    var s' := StepPNextFront(s);
    var n := s.blocks[s.p.nxt];
    var n' := n.(localFront := n.front);
    assert Contents(n') == Contents(n);
    StoreKeepsQueue(s.blocks, s.p.nxt, n', ring, t);
    StoreKeepsShape(s, s', ring, t, t + 1, n');
    ConsumerKept(s, s', ring, t, ring, t);
  }

  lemma BeyondArc<T>(s: State<T>, ring: seq<nat>, t: nat, i: nat)
    requires Shape(s, ring, t) && t < i < |ring| && !s.p.PMove?
    ensures ring[i] < |s.blocks| && Count(s.blocks[ring[i]]) == 0
  {
  }

  lemma NextWriteOk<T>(s: State<T>, ring: seq<nat>, t: nat)
    requires Inv(s, ring, t) && s.p.PNextWrite?
    ensures Inv(StepPNextWrite(s), ring, t)
  {
    hide ConsumerOk, ConsumerTyped, LogsOk, Queue, Capacity, Contents, ArcOk;
    var s' := StepPNextWrite(s);
    BeyondArc(s, ring, t, t + 1);
    var n := s.blocks[s.p.nxt];
    assert Count(n) == 0;
    var n' := n.(localFront := n.front, data := n.data[n.tail := s.p.x]);
    StoreBeyondArc(s.blocks, t + 1, n', ring, t);
    StoreKeepsShape(s, s', ring, t, t + 1, n');
    ConsumerKept(s, s', ring, t, ring, t);
  }

  lemma NextTailOk<T>(s: State<T>, ring: seq<nat>, t: nat)
    requires Inv(s, ring, t) && s.p.PNextTail?
    ensures Inv(StepPNextTail(s), ring, t)
  {
    hide ConsumerOk, LogsOk, Queue, Capacity, Contents;
    var s' := StepPNextTail(s);
    var n := s.blocks[s.p.nxt];
    var n' := n.(tail := Inc(n.tail, n.size));
    assert Count(n) == 0;
    ShadowRoom(n);
    Push(n, s.p.x);
    assert n.data[n.tail := s.p.x] == n.data;
    StoreKeepsShape(s, s', ring, t, t + 1, n');
    ConsumerKept(s, s', ring, t, ring, t);
    StoreBeyondArc(s.blocks, t + 1, n', ring, t);
  }

  lemma MoveKeepsShape<T>(s: State<T>, ring: seq<nat>, t: nat)
    requires Shape(s, ring, t) && ProducerOk(s, ring, t) && s.p.PMove?
    ensures t + 1 < |ring| && Shape(StepPMove(s), ring, t + 1)
  {
  }

  lemma MoveOk<T>(s: State<T>, ring: seq<nat>, t: nat)
    requires Inv(s, ring, t) && s.p.PMove?
    ensures t + 1 < |ring| && Inv(StepPMove(s), ring, t + 1)
  {
    hide ConsumerOk, Capacity, ShadowsOk;
    MoveKeepsShape(s, ring, t);
    ConsumerKept(s, StepPMove(s), ring, t, ring, t + 1);
    QueueBack(s.blocks, ring, t + 1);
  }

  lemma AppendKeepsRing<T>(a: seq<Block<T>>, b: Block<T>, ring: seq<nat>)
    requires RingOk(a, ring)
    ensures RingOk(a + [b], ring) && |a| !in ring
  {
    var a' := a + [b];
    forall i | 0 <= i < |ring| - 1 ensures a'[ring[i]].next == ring[i + 1] { assert a'[ring[i]] == a[ring[i]]; }
    assert a'[ring[|ring| - 1]] == a[ring[|ring| - 1]];
  }

  lemma AppendKeepsArc<T>(a: seq<Block<T>>, b: Block<T>, ring: seq<nat>, t: nat, p: Producer<T>, p': Producer<T>)
    requires BlocksTyped(a) && BlocksTyped(a + [b]) && RingOk(a, ring) && RingOk(a + [b], ring) && t < |ring|
    requires ArcOk(a, ring, t, p) && !p.PMove? && !p'.PMove?
    ensures ArcOk(a + [b], ring, t, p')
  {
    assert forall i :: 0 <= i < |ring| ==> (a + [b])[ring[i]] == a[ring[i]];
  }

  lemma AppendKeepsShadows<T>(a: seq<Block<T>>, b: Block<T>)
    requires BlocksTyped(a) && BlocksTyped(a + [b]) && ShadowsOk(a) && Shaped(b) && ShadowsLag(b)
    ensures ShadowsOk(a + [b])
  {
    forall i | 0 <= i < |a + [b]| ensures ShadowsLag((a + [b])[i]) { assert i < |a| ==> (a + [b])[i] == a[i]; }
  }

  lemma AppendKeepsQueue<T>(a: seq<Block<T>>, b: Block<T>, ring: seq<nat>, t: nat)
    requires BlocksTyped(a) && BlocksTyped(a + [b]) && RingOk(a, ring) && RingOk(a + [b], ring) && t < |ring|
    ensures Queue(a + [b], ring, t) == Queue(a, ring, t)
  {
    hide Join, Contents;
    JoinFrame(a, a + [b], ring[..t + 1]);
  }

  lemma AllocKeepsShape<T>(s: State<T>, ring: seq<nat>, t: nat)
    requires Shape(s, ring, t) && s.p.PAlloc?
    ensures Shape(StepPAlloc(s, true), ring, t) && |s.blocks| !in ring
    ensures Queue(StepPAlloc(s, true).blocks, ring, t) == Queue(s.blocks, ring, t)
  {
    hide RingOk, ArcOk, ShadowsOk, Queue, ConsumerTyped, Contents;
    var s' := StepPAlloc(s, true);
    var b := s'.blocks[|s.blocks|];
    RingIndices(s.blocks, ring);
    assert s'.blocks == s.blocks + [b];
    AppendKeepsRing(s.blocks, b, ring);
    AppendKeepsArc(s.blocks, b, ring, t, s.p, s'.p);
    AppendKeepsShadows(s.blocks, b);
    AppendKeepsQueue(s.blocks, b, ring, t);
  }

  // Only a producer that is about to move the tail block may have filled a block beyond the arc.
  lemma ArcIgnores<T>(a: seq<Block<T>>, ring: seq<nat>, t: nat, p: Producer<T>, p': Producer<T>)
    requires BlocksTyped(a) && RingOk(a, ring) && t < |ring| && ArcOk(a, ring, t, p) && !p.PMove? && !p'.PMove?
    ensures ArcOk(a, ring, t, p')
  {
  }

  lemma AllocOk<T>(s: State<T>, ring: seq<nat>, t: nat, allocOk: bool)
    requires Inv(s, ring, t) && s.p.PAlloc?
    ensures Inv(StepPAlloc(s, allocOk), ring, t)
  {
    hide ConsumerOk, LogsOk, Queue, Capacity, ShadowsOk, ArcOk, ConsumerTyped;
    if allocOk { AllocKeepsShape(s, ring, t); } else { ArcIgnores(s.blocks, ring, t, s.p, PIdle); }
    ConsumerKept(s, StepPAlloc(s, allocOk), ring, t, ring, t);
  }

  // The new block enters the ring right behind the tail block.
  function Insert(ring: seq<nat>, t: nat, n: nat): seq<nat>
    requires t < |ring|
  {
    ring[..t + 1] + [n] + ring[t + 1..]
  }

  lemma InsertAt(ring: seq<nat>, t: nat, n: nat)
    requires t < |ring|
    ensures var r := Insert(ring, t, n);
      && |r| == |ring| + 1 && r[t + 1] == n
      && (forall i :: 0 <= i <= t ==> r[i] == ring[i])
      && (forall i :: t + 1 < i < |r| ==> r[i] == ring[i - 1])
  {
  }

  lemma InsertDistinct(ring: seq<nat>, t: nat, n: nat)
    requires t < |ring| && n !in ring && forall i, j :: 0 <= i < j < |ring| ==> ring[i] != ring[j]
    ensures var r := Insert(ring, t, n); forall i, j :: 0 <= i < j < |r| ==> r[i] != r[j]
  {
    hide Insert;
    InsertAt(ring, t, n);
    var r := Insert(ring, t, n);
    forall i, j | 0 <= i < j < |r| ensures r[i] != r[j] {
      var i', j' := if i <= t then i else i - 1, if j <= t then j else j - 1;
      assert (i != t + 1 ==> r[i] == ring[i']) && (j != t + 1 ==> r[j] == ring[j']);
    }
  }

  lemma InsertLinks<T>(a: seq<Block<T>>, ring: seq<nat>, t: nat, n: nat, i: nat)
    requires RingOk(a, ring) && t < |ring| && n < |a| && n !in ring && a[n].next == a[ring[t]].next && i < |ring|
    ensures |Insert(ring, t, n)| == |ring| + 1 && Insert(ring, t, n)[i] < |a|
    ensures a[ring[t] := a[ring[t]].(next := n)][Insert(ring, t, n)[i]].next == Insert(ring, t, n)[i + 1]
  {
    hide Insert;
    InsertAt(ring, t, n);
    if i == t + 1 {
      assert a[ring[t]].next == ring[t + 1];
    } else if i != t {
      var k := if i < t then i else i - 1;
      assert ring[k] != ring[t] && a[ring[k]].next == ring[k + 1];
    }
  }

  lemma InsertKeepsRing<T>(a: seq<Block<T>>, ring: seq<nat>, t: nat, n: nat)
    requires RingOk(a, ring) && t < |ring| && n < |a| && n !in ring && a[n].next == a[ring[t]].next
    ensures RingOk(a[ring[t] := a[ring[t]].(next := n)], Insert(ring, t, n))
  {
    hide Insert;
    var a' := a[ring[t] := a[ring[t]].(next := n)];
    var r := Insert(ring, t, n);
    InsertAt(ring, t, n);
    InsertDistinct(ring, t, n);
    forall i | 0 <= i < |r| ensures r[i] < |a'| {
      assert i != t + 1 ==> r[i] == ring[if i <= t then i else i - 1];
    }
    forall i | 0 <= i < |r| - 1 ensures a'[r[i]].next == r[i + 1] { InsertLinks(a, ring, t, n, i); }
    var m := |ring| - 1;
    if t < m { assert r[m + 1] == ring[m] && ring[m] != ring[t]; }
  }

  // The pointer to the next block plays no part in what a block holds.
  lemma InsertKeepsArc<T>(a: seq<Block<T>>, ring: seq<nat>, t: nat, n: nat, p: Producer<T>, p': Producer<T>)
    requires BlocksTyped(a) && RingOk(a, ring) && t < |ring| && n < |a| && ArcOk(a, ring, t, p) && !p.PMove? && p'.PMove? && p'.nxt == n
    requires var a' := a[ring[t] := a[ring[t]].(next := n)]; BlocksTyped(a') && RingOk(a', Insert(ring, t, n))
    ensures ArcOk(a[ring[t] := a[ring[t]].(next := n)], Insert(ring, t, n), t, p')
  {
    hide Insert, RingOk, Contents;
    RingIndices(a, ring);
    var a' := a[ring[t] := a[ring[t]].(next := n)];
    var r := Insert(ring, t, n);
    InsertAt(ring, t, n);
    RingIndices(a', r);
    forall i | 0 < i <= t ensures Count(a'[r[i]]) > 0 && (i < t ==> Full(a'[r[i]])) {
      assert r[i] == ring[i] && Count(a[ring[i]]) > 0;
      SameBut(a, ring[t], n, ring[i]);
    }
    forall i | t < i < |r| && r[i] != n ensures Count(a'[r[i]]) == 0 {
      assert r[i] == ring[i - 1] && Count(a[ring[i - 1]]) == 0;
      SameBut(a, ring[t], n, ring[i - 1]);
    }
  }

  lemma RingIndices<T>(a: seq<Block<T>>, ring: seq<nat>)
    requires RingOk(a, ring)
    ensures forall i :: 0 <= i < |ring| ==> ring[i] < |a|
  {
  }

  lemma SameBut<T>(a: seq<Block<T>>, b: nat, n: nat, k: nat)
    requires BlocksTyped(a) && b < |a| && k < |a| && BlocksTyped(a[b := a[b].(next := n)])
    ensures var a' := a[b := a[b].(next := n)]; Count(a'[k]) == Count(a[k]) && (Full(a'[k]) <==> Full(a[k]))
  {
  }

  lemma LinkKeepsArc<T>(s: State<T>, ring: seq<nat>, t: nat)
    requires Shape(s, ring, t) && ProducerOk(s, ring, t) && s.p.PLink?
    requires RingOk(StepPLink(s).blocks, Insert(ring, t, s.p.added))
    ensures ArcOk(StepPLink(s).blocks, Insert(ring, t, s.p.added), t, StepPLink(s).p)
  {
    hide ArcOk, RingOk, Insert, ShadowsOk, ConsumerTyped;
    InsertKeepsArc(s.blocks, ring, t, s.p.added, s.p, StepPLink(s).p);
  }

  lemma NextKeepsShadows<T>(a: seq<Block<T>>, b: nat, n: nat)
    requires BlocksTyped(a) && b < |a| && BlocksTyped(a[b := a[b].(next := n)]) && ShadowsOk(a)
    ensures ShadowsOk(a[b := a[b].(next := n)])
  {
    var a' := a[b := a[b].(next := n)];
    forall i | 0 <= i < |a'| ensures ShadowsLag(a'[i]) { assert ShadowsLag(a[i]); }
  }

  lemma LinkKeepsShape<T>(s: State<T>, ring: seq<nat>, t: nat)
    requires Shape(s, ring, t) && ProducerOk(s, ring, t) && s.p.PLink?
    ensures Shape(StepPLink(s), Insert(ring, t, s.p.added), t)
  {
    hide ArcOk, ShadowsOk, RingOk, Insert, ConsumerTyped, BlocksTyped, Contents;
    RingIndices(s.blocks, ring);
    InsertAt(ring, t, s.p.added);
    InsertKeepsRing(s.blocks, ring, t, s.p.added);
    LinkKeepsArc(s, ring, t);
    NextKeepsShadows(s.blocks, s.tailBlock, s.p.added);
  }

  lemma LinkKeepsQueue<T>(s: State<T>, ring: seq<nat>, t: nat)
    requires Shape(s, ring, t) && ProducerOk(s, ring, t) && s.p.PLink?
    requires Shape(StepPLink(s), Insert(ring, t, s.p.added), t)
    ensures Queue(StepPLink(s).blocks, Insert(ring, t, s.p.added), t) == Queue(s.blocks, ring, t)
  {
    hide ArcOk, ShadowsOk, RingOk, ConsumerTyped, Join;
    RingIndices(s.blocks, ring);
    var s' := StepPLink(s);
    assert Insert(ring, t, s.p.added)[..t + 1] == ring[..t + 1];
    JoinFrame(s.blocks, s'.blocks, ring[..t + 1]);
  }

  lemma LinkKeepsConsumer<T>(s: State<T>, ring: seq<nat>, t: nat)
    requires Shape(s, ring, t) && ProducerOk(s, ring, t) && ConsumerOk(s, ring, t) && s.p.PLink?
    requires Shape(StepPLink(s), Insert(ring, t, s.p.added), t)
    ensures ConsumerOk(StepPLink(s), Insert(ring, t, s.p.added), t)
  {
    hide ConsumerOk, ArcOk, ShadowsOk, Insert;
    InsertAt(ring, t, s.p.added);
    ConsumerKept(s, StepPLink(s), ring, t, Insert(ring, t, s.p.added), t);
  }

  lemma LinkKeepsProducer<T>(s: State<T>, ring: seq<nat>, t: nat)
    requires Shape(s, ring, t) && ProducerOk(s, ring, t) && s.p.PLink?
    requires Shape(StepPLink(s), Insert(ring, t, s.p.added), t)
    ensures ProducerOk(StepPLink(s), Insert(ring, t, s.p.added), t)
  {
    hide ArcOk, ShadowsOk, Insert, ConsumerTyped;
    InsertAt(ring, t, s.p.added);
    assert s.p.added != s.tailBlock;
  }

  lemma LinkOk<T>(s: State<T>, ring: seq<nat>, t: nat)
    requires Inv(s, ring, t) && s.p.PLink?
    ensures Inv(StepPLink(s), Insert(ring, t, s.p.added), t)
  {
    hide ConsumerOk, ProducerOk, LogsOk, Queue, Shape, Insert;
    ShapeBasics(s, ring, t);
    LinkKeepsShape(s, ring, t);
    ShapeBasics(StepPLink(s), Insert(ring, t, s.p.added), t);
    LinkKeepsConsumer(s, ring, t);
    LinkKeepsProducer(s, ring, t);
    LinkKeepsQueue(s, ring, t);
  }

  lemma ShapeBasics<T>(s: State<T>, ring: seq<nat>, t: nat)
    requires Shape(s, ring, t)
    ensures Typed(s) && RingOk(s.blocks, ring) && t < |ring|
  {
  }

  // ------------------------------------------------------------------ the consumer

  // The facts the producer relies on survive a step of the consumer.
  lemma ProducerKept<T>(s: State<T>, s': State<T>, ring: seq<nat>, t: nat, ring': seq<nat>, t': nat)
    requires Shape(s, ring, t) && ProducerOk(s, ring, t)
    requires Typed(s') && RingOk(s'.blocks, ring') && t' < |ring'| == |ring| && t' <= t
    requires s'.p == s.p && s'.tailBlock == s.tailBlock && |s'.blocks| == |s.blocks|
    requires t + 1 < |ring| ==> t' + 1 < |ring'| && ring'[t' + 1] == ring[t + 1] && s'.blocks[ring[t + 1]] == s.blocks[ring[t + 1]]
    requires forall n :: n in ring' ==> n in ring
    requires forall n :: 0 <= n < |s.blocks| && n !in ring ==> s'.blocks[n] == s.blocks[n]
    requires var b, b' := s.blocks[s.tailBlock], s'.blocks[s.tailBlock];
      && b'.tail == b.tail && b'.localFront == b.localFront && b'.size == b.size && b'.data == b.data && b'.next == b.next
      && (t' == 0 || b'.front == b.front)
    requires t' == |ring'| - 1 ==> t == t' && Capacity(s'.blocks, ring') == Capacity(s.blocks, ring)
    ensures ProducerOk(s', ring', t')
  {
  }

  lemma CStartOk<T>(s: State<T>, ring: seq<nat>, t: nat)
    requires Inv(s, ring, t) && s.c.CStart?
    ensures Inv(StepCStart(s), ring, t)
  {
    hide ProducerOk, LogsOk, Queue, Capacity, ShadowsOk;
    ProducerKept(s, StepCStart(s), ring, t, ring, t);
  }

  lemma RefreshKeepsShape<T>(s: State<T>, s': State<T>, ring: seq<nat>, t: nat, i: nat)
    requires Shape(s, ring, t) && Typed(s') && i <= 1 && i <= t
    requires var b := s.blocks[ring[i]];
      s' == s.(blocks := s.blocks[ring[i] := b.(localTail := b.tail)], c := s'.c)
    ensures Shape(s', ring, t)
  {
    var b := s.blocks[ring[i]];
    StoreKeepsShape(s, s', ring, t, i, b.(localTail := b.tail));
  }

  // The consumer refreshes its shadow copy of tail in the front block or the one after it.
  lemma RefreshOk<T>(s: State<T>, s': State<T>, ring: seq<nat>, t: nat, i: nat)
    requires Inv(s, ring, t) && Typed(s') && i <= 1 && i <= t
    requires var b := s.blocks[ring[i]];
      s' == s.(blocks := s.blocks[ring[i] := b.(localTail := b.tail)], c := s'.c)
    ensures Shape(s', ring, t) && ProducerOk(s', ring, t)
    ensures s'.accepted == s'.delivered + Queue(s'.blocks, ring, t)
  {
    hide ProducerOk, ConsumerOk, LogsOk, Queue, Capacity, ArcOk;
    var b := s.blocks[ring[i]];
    var b' := b.(localTail := b.tail);
    assert Contents(b') == Contents(b);
    StoreKeepsQueue(s.blocks, ring[i], b', ring, t);
    StoreKeepsCapacity(s.blocks, ring[i], b', ring);
    RefreshKeepsShape(s, s', ring, t, i);
    ProducerKept(s, s', ring, t, ring, t);
  }

  lemma CCheckTailOk<T>(s: State<T>, ring: seq<nat>, t: nat)
    requires Inv(s, ring, t) && s.c.CCheckTail?
    ensures Inv(StepCCheckTail(s), ring, t)
  {
    var s' := StepCCheckTail(s);
    RefreshOk(s, s', ring, t, 0);
    QueueFront(s.blocks, ring, t);
    assert t == 0 && Count(s.blocks[s.frontBlock]) == 0 ==> Present(s) == 0;
  }

  lemma HeadOfQueue<T>(s: State<T>, ring: seq<nat>, t: nat)
    requires Shape(s, ring, t) && Count(s.blocks[s.frontBlock]) > 0
    ensures |Queue(s.blocks, ring, t)| > 0
    ensures var b := s.blocks[s.frontBlock]; Queue(s.blocks, ring, t)[0] == b.data[b.front]
  {
    Pop(s.blocks[s.frontBlock]);
    QueueFront(s.blocks, ring, t);
  }

  // A peek that reports the head of the queue reports the next element to be delivered.
  lemma PeekLogsOk<T>(s: State<T>, q: seq<T>)
    requires LogsOk(s.pops, s.accepted) && s.accepted == s.delivered + q && |q| > 0
    ensures LogsOk(s.pops + [Peeked(q[0], |s.delivered|)], s.accepted)
  {
  }

  lemma CReadOk<T>(s: State<T>, ring: seq<nat>, t: nat)
    requires Inv(s, ring, t) && s.c.CRead?
    ensures Inv(StepCRead(s), ring, t)
  {
    hide Queue, Capacity, ArcOk;
    if s.c.kind == Look {
      ShadowAhead(s.blocks[s.frontBlock]);
      HeadOfQueue(s, ring, t);
      PeekLogsOk(s, Queue(s.blocks, ring, t));
    }
  }

  lemma AdvanceQueue<T>(s: State<T>, ring: seq<nat>, t: nat)
    requires Shape(s, ring, t) && Count(s.blocks[s.frontBlock]) > 0
    ensures var b := s.blocks[s.frontBlock];
      var a := s.blocks[s.frontBlock := b.(front := Inc(b.front, b.size))];
      && BlocksTyped(a) && RingOk(a, ring)
      && Queue(s.blocks, ring, t) == [b.data[b.front]] + Queue(a, ring, t)
  {
    hide Queue, ArcOk, ShadowsOk, Join, Contents;
    var b := s.blocks[s.frontBlock];
    var b' := b.(front := Inc(b.front, b.size));
    var a := s.blocks[s.frontBlock := b'];
    Pop(b);
    StoreKeepsRing(s.blocks, s.frontBlock, b', ring);
    QueueFront(s.blocks, ring, t);
    QueueFront(a, ring, t);
    JoinFrame(s.blocks, a, ring[1..t + 1]);
  }

  lemma AdvanceKeepsShape<T>(s: State<T>, ring: seq<nat>, t: nat)
    requires Shape(s, ring, t) && ConsumerOk(s, ring, t) && s.c.CAdvance?
    ensures Shape(StepCAdvance(s), ring, t)
  {
    hide ArcOk;
    var b := s.blocks[s.frontBlock];
    ShadowAhead(b);
    StoreKeepsShape(s, StepCAdvance(s), ring, t, 0, b.(front := Inc(b.front, b.size)));
  }

  lemma AdvanceKeepsProducer<T>(s: State<T>, ring: seq<nat>, t: nat)
    requires Inv(s, ring, t) && s.c.CAdvance? && Shape(StepCAdvance(s), ring, t)
    ensures ProducerOk(StepCAdvance(s), ring, t)
  {
    hide ProducerOk, LogsOk, Queue, Capacity, ArcOk, ShadowsOk;
    var b := s.blocks[s.frontBlock];
    StoreKeepsCapacity(s.blocks, s.frontBlock, b.(front := Inc(b.front, b.size)), ring);
    ProducerKept(s, StepCAdvance(s), ring, t, ring, t);
  }

  lemma CAdvanceOk<T>(s: State<T>, ring: seq<nat>, t: nat)
    requires Inv(s, ring, t) && s.c.CAdvance?
    ensures Inv(StepCAdvance(s), ring, t)
  {
    hide ProducerOk, Queue, Capacity;
    ShadowAhead(s.blocks[s.frontBlock]);
    AdvanceQueue(s, ring, t);
    AdvanceKeepsShape(s, ring, t);
    AdvanceKeepsProducer(s, ring, t);
  }

  lemma CCheckTailBlockOk<T>(s: State<T>, ring: seq<nat>, t: nat)
    requires Inv(s, ring, t) && s.c.CCheckTailBlock?
    ensures Inv(StepCCheckTailBlock(s), ring, t)
  {
  }

  lemma CRecheckOk<T>(s: State<T>, ring: seq<nat>, t: nat)
    requires Inv(s, ring, t) && s.c.CRecheck?
    ensures Inv(StepCRecheck(s), ring, t)
  {
    RefreshOk(s, StepCRecheck(s), ring, t, 0);
  }

  lemma CNextOk<T>(s: State<T>, ring: seq<nat>, t: nat)
    requires Inv(s, ring, t) && s.c.CNext?
    ensures Inv(StepCNext(s), ring, t)
  {
  }

  lemma CNextTailOk<T>(s: State<T>, ring: seq<nat>, t: nat)
    requires Inv(s, ring, t) && s.c.CNextTail?
    ensures Inv(StepCNextTail(s), ring, t)
  {
    hide ProducerOk, LogsOk, Queue, Capacity, ShadowsOk;
    var s' := StepCNextTail(s);
    if s.c.kind == Take { RefreshOk(s, s', ring, t, 1); } else { ProducerKept(s, s', ring, t, ring, t); }
  }

  lemma CLookNextOk<T>(s: State<T>, ring: seq<nat>, t: nat)
    requires Inv(s, ring, t) && s.c.CLookNext?
    ensures Inv(StepCLookNext(s), ring, t)
  {
    var n := s.blocks[s.c.nxt];
    Pop(n);
    QueueFront(s.blocks, ring, t);
    assert ring[1..t + 1][0] == ring[1];
    assert Queue(s.blocks, ring, t)[0] == n.data[n.front];
    PeekLogsOk(s, Queue(s.blocks, ring, t));
  }

  // The front block is left behind and becomes the last block of the ring.
  function Rotate(ring: seq<nat>): seq<nat>
    requires |ring| > 0
  {
    ring[1..] + [ring[0]]
  }

  lemma RotateKeepsRing<T>(a: seq<Block<T>>, ring: seq<nat>)
    requires RingOk(a, ring)
    ensures RingOk(a, Rotate(ring))
  {
  }

  lemma MoveFrontKeepsShape<T>(s: State<T>, ring: seq<nat>, t: nat)
    requires Shape(s, ring, t) && ConsumerOk(s, ring, t) && s.c.CMoveFront?
    ensures t > 0 && Shape(StepCMoveFront(s), Rotate(ring), t - 1)
  {
    RotateKeepsRing(s.blocks, ring);
    var ring' := Rotate(ring);
    assert forall i :: 0 <= i < |ring| - 1 ==> ring'[i] == ring[i + 1];
  }

  lemma MoveFrontKeepsProducer<T>(s: State<T>, ring: seq<nat>, t: nat)
    requires Inv(s, ring, t) && s.c.CMoveFront?
    requires Shape(StepCMoveFront(s), Rotate(ring), t - 1)
    ensures ProducerOk(StepCMoveFront(s), Rotate(ring), t - 1)
  {
    var ring' := Rotate(ring);
    assert forall i :: 0 <= i < |ring| - 1 ==> ring'[i] == ring[i + 1];
    ProducerKept(s, StepCMoveFront(s), ring, t, ring', t - 1);
  }

  lemma CMoveFrontOk<T>(s: State<T>, ring: seq<nat>, t: nat)
    requires Inv(s, ring, t) && s.c.CMoveFront?
    ensures t > 0 && Inv(StepCMoveFront(s), Rotate(ring), t - 1)
  {
    hide ProducerOk, LogsOk, Capacity;
    MoveFrontKeepsShape(s, ring, t);
    MoveFrontKeepsProducer(s, ring, t);
    QueueFront(s.blocks, ring, t);
    assert Rotate(ring)[..t] == ring[1..t + 1];
  }
}
