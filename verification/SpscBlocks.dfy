/**
 The circular blocks of the lock-free single-producer single-consumer queue.

 A block is a circular buffer with one wasted slot.  Its indices are stepped with
 `(i + 1) & sizeMask`, where the size is a power of two; `Inc` is that step on
 natural numbers, and `MaskIsInc` justifies it on 64-bit words.
 */
module SpscBlocks {

  datatype Block<T> = Block(
    front: nat,       // consumer: next element to read
    localTail: nat,   // consumer: shadow copy of tail
    tail: nat,        // producer: next free slot
    localFront: nat,  // producer: shadow copy of front
    next: nat,        // producer: following block of the ring
    size: nat,
    data: seq<T>)

  // (i + 1) & sizeMask
  function Inc(i: nat, size: nat): (j: nat)
    requires i < size
  {
    if i + 1 == size then 0 else i + 1
  }

  // The number of steps of Inc that lead from a to b.
  function Dist(a: nat, b: nat, size: nat): (d: nat)
    requires a < size && b < size
  {
    if a <= b then b - a else b + size - a
  }

  // The index reached from a after k steps of Inc.
  function At(a: nat, k: nat, size: nat): (i: nat)
    requires a < size && k < size
    ensures i < size && Dist(a, i, size) == k
  {
    if a + k < size then a + k else a + k - size
  }

  // Every index of the block is in range.  make_block never gets a size below two.
  predicate Shaped<T>(b: Block<T>) {
    && 2 <= b.size == |b.data|
    && b.front < b.size && b.tail < b.size
    && b.localFront < b.size && b.localTail < b.size
  }

  function Count<T>(b: Block<T>): (n: nat)
    requires Shaped(b)
    ensures n < b.size
  {
    Dist(b.front, b.tail, b.size)
  }

  predicate Full<T>(b: Block<T>)
    requires Shaped(b)
  {
    Count(b) == b.size - 1
  }

  // The elements of the block, oldest first.
  function Contents<T>(b: Block<T>): (s: seq<T>)
    requires Shaped(b)
    ensures |s| == Count(b)
  {
    seq(Count(b), k requires 0 <= k < Count(b) => b.data[At(b.front, k, b.size)])
  }

  // The shadow copies are stale but never ahead of the index they copy.
  predicate ShadowsLag<T>(b: Block<T>)
    requires Shaped(b)
  {
    && Dist(b.front, b.tail, b.size) <= Dist(b.localFront, b.tail, b.size)
    && Dist(b.front, b.localTail, b.size) <= Dist(b.front, b.tail, b.size)
  }

  // The block has room even according to the producer's stale copy of front.
  predicate ShadowHasRoom<T>(b: Block<T>)
    requires Shaped(b)
  {
    Inc(b.tail, b.size) != b.localFront
  }

  // The producer's test on the shadow copy is safe, and stepping tail keeps the shadows behind.
  lemma ShadowRoom<T>(b: Block<T>)
    requires Shaped(b) && ShadowsLag(b) && ShadowHasRoom(b)
    ensures !Full(b)
    ensures var c := b.(tail := Inc(b.tail, b.size)); Shaped(c) && ShadowsLag(c) && Count(c) == Count(b) + 1
  {
  }

  // The consumer's test on its shadow copy is safe, and stepping front keeps the shadows behind.
  lemma ShadowAhead<T>(b: Block<T>)
    requires Shaped(b) && ShadowsLag(b) && b.front != b.localTail
    ensures Count(b) > 0
    ensures var c := b.(front := Inc(b.front, b.size)); Shaped(c) && ShadowsLag(c) && Count(c) == Count(b) - 1
  {
  }

  // Storing into the slot at tail and stepping tail appends, whenever the block is not full.
  lemma Push<T>(b: Block<T>, x: T)
    requires Shaped(b) && !Full(b)
    ensures var c := b.(data := b.data[b.tail := x]); Shaped(c) && Contents(c) == Contents(b)
    ensures var c := b.(data := b.data[b.tail := x], tail := Inc(b.tail, b.size));
            Shaped(c) && Contents(c) == Contents(b) + [x]
  {
    var c := b.(data := b.data[b.tail := x], tail := Inc(b.tail, b.size));
    assert Count(c) == Count(b) + 1;
    forall k | 0 <= k < Count(c) ensures Contents(c)[k] == (Contents(b) + [x])[k] {
      assert At(b.front, k, b.size) == b.tail <==> k == Count(b);
    }
  }

  // Stepping front removes the oldest element, which is the one stored at front.
  lemma Pop<T>(b: Block<T>)
    requires Shaped(b) && Count(b) > 0
    ensures Contents(b)[0] == b.data[b.front]
    ensures var c := b.(front := Inc(b.front, b.size));
            Shaped(c) && Contents(c) == Contents(b)[1..]
  {
    var c := b.(front := Inc(b.front, b.size));
    forall k | 0 <= k < Count(c) ensures Contents(c)[k] == Contents(b)[1..][k] {
      assert At(c.front, k, b.size) == At(b.front, k + 1, b.size);
    }
  }

  // The masked increment of the source is Inc when the size is a power of two.
  lemma MaskIsInc(i: bv64, size: bv64)
    requires size != 0 && size & (size - 1) == 0
    requires i < size
    ensures (i + 1) & (size - 1) == if i + 1 == size then 0 else i + 1
  {
  }
}
