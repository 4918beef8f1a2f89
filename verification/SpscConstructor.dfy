/** Construction of the queue and the capacity it guarantees. */
module SpscConstructor {
  import opened SpscBlocks
  import opened SpscQueue
  import opened SpscCalls
  import opened SpscMoments
  import opened SpscInvariant
  import opened SpscTheorems

  // 2^k
  function Pow2(k: nat): (p: nat)
    ensures p > 0
  {
    if k == 0 then 1 else 2 * Pow2(k - 1)
  }

  // The exponent of the least power of two that is not below x (ceilToPow2, for sizes far from
  // the top of the 64-bit range).
  function CeilLog2(x: nat): (k: nat)
    ensures x <= Pow2(k) && (k > 0 ==> Pow2(k - 1) < x)
    decreases x
  {
    if x <= 1 then 0 else
    var k := CeilLog2((x + 1) / 2);
    k + 1
  }

  method Construct<T>(maxSize: nat, maxBlock: nat, junk: T) returns (s: State<T>, ghost n: nat, ghost size: nat)
    requires maxSize > 0
    requires maxBlock >= 2  // and a power of two, which only the masks need
    ensures Built(s, n, size) && s.maxBlock == maxBlock
    ensures (if n == 1 then 1 else n - 1) * (size - 1) >= maxSize
    ensures n == 1 ==> size <= 2 * maxSize && size <= 2 * maxBlock && exists k :: size == Pow2(k)
    ensures n > 1 ==> size == maxBlock < maxSize && (n - 2) * (size - 1) < maxSize
    ensures forall i :: 0 <= i < n ==> var b := s.blocks[i]; b.front == b.tail == b.localFront == b.localTail == 0
  {
    var largest := Pow2(CeilLog2(maxSize + 1));
    var blocks: seq<Block<T>> := [];
    if largest > maxBlock * 2 {
      var count := (maxSize + maxBlock * 2 - 3) / (maxBlock - 1);
      largest := maxBlock;
      BlockCount(maxSize, maxBlock);
      var i := 0;
      while i != count
        invariant 0 <= i == |blocks| <= count
        invariant forall k :: 0 <= k < i ==>
          blocks[k] == MakeBlock(largest, if k + 1 == i then 0 else k + 1, junk)
      {
        if i > 0 {
          blocks := blocks[i - 1 := blocks[i - 1].(next := i)];
        }
        blocks := blocks + [MakeBlock(largest, 0, junk)];
        i := i + 1;
      }
    } else {
      blocks := [MakeBlock(largest, 0, junk)];
    }
    n, size := |blocks|, largest;
    s := State(blocks, 0, 0, largest, maxBlock, junk, PIdle, CIdle, [], [], [], [], []);
  }

  // The number of blocks is ceil(maxSize / (m - 1)) + 1.
  lemma BlockCount(maxSize: nat, m: nat)
    requires maxSize > 0 && m >= 2
    ensures var count := (maxSize + m * 2 - 3) / (m - 1);
      count >= 2 && (count - 2) * (m - 1) < maxSize <= (count - 1) * (m - 1)
  {
    var d := m - 1;
    var a := maxSize + m * 2 - 3;
    var count := a / d;
    assert a == count * d + a % d;
    assert (count - 1) * d == count * d - d;
    assert (count - 2) * d == count * d - 2 * d;
    assert count <= 1 ==> count * d <= 1 * d;
  }

  // A queue built for maxSize elements refuses one through try_enqueue only if at least maxSize
  // were present at some moment during the call.
  lemma RefusalMeansFull<T>(s: State<T>, n: nat, size: nat, maxSize: nat, actions: seq<Action<T>>, i: nat)
    requires Built(s, n, size) && (if n == 1 then 1 else n - 1) * (size - 1) >= maxSize
    requires forall k :: 0 <= k < |actions| ==> TriesOnly(actions[k])
    ensures var pushes := Run(s, actions).pushes;
      i < |pushes| && pushes[i].Refused? ==> pushes[i].present >= maxSize && Typed(s) && PushMoment(s, actions, i, pushes[i].present)
  {
    hide Inv, Fixed, Run, Built, PushMoment;
    var ring, t := RunKeepsRefusals(s, n, size, actions);
    BuiltOk(s, n, size);
    InvBasics(s, FirstRing(n), 0);
    BuiltFresh(s, n, size);
    RunWitnessed(s, actions);
  }
}
