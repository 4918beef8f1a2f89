/** The 64-bit rounding of a size and the power of two that the constructor needs are the same number. */
module SpscSizes {
  import opened SpscPow2
  import opened SpscConstructor

  function Half(x: bv64): bv64 { x >> 1 }
  predicate Odd(x: bv64) { x & 1 == 1 }
  predicate AtMost(x: bv64, y: bv64) { x <= y }
  predicate Precedes(x: bv64, y: bv64) { y != 0 && x == y - 1 }

  function Bit0(odd: bool): nat { if odd then 1 else 0 }

  lemma HalfBelow(x: bv64)
    requires x != 0
    ensures Half(x) < x && (Half(x) == 0 ==> Odd(x))
  {
  }

  // The number that a word stands for.
  function Value(x: bv64): (n: nat)
    decreases x
  {
    if x == 0 then 0 else
    HalfBelow(x);
    2 * Value(Half(x)) + Bit0(Odd(x))
  }

  lemma ValueSplit(x: bv64)
    ensures Value(x) == 2 * Value(Half(x)) + Bit0(Odd(x))
  {
    if x == 0 { assert Half(x) == 0 && !Odd(x); }
  }

  lemma {:induction false} ValuePositive(x: bv64)
    requires x != 0
    ensures Value(x) > 0
    decreases x
  {
    HalfBelow(x);
    hide Half, Odd;
    if Half(x) != 0 { ValuePositive(Half(x)); }
  }

  lemma HalfSmaller(x: bv64)
    requires x != 0
    ensures Value(Half(x)) < Value(x)
  {
    hide Half, Odd, Value;
    ValuePositive(x);
    ValueSplit(x);
  }

  lemma OddPrecedes(x: bv64, y: bv64)
    requires Precedes(x, y) && Odd(y)
    ensures Half(x) == Half(y) && !Odd(x)
  {
  }

  lemma EvenPrecedes(x: bv64, y: bv64)
    requires Precedes(x, y) && !Odd(y)
    ensures Precedes(Half(x), Half(y))
  {
  }

  lemma EvenPrecedesOdd(x: bv64, y: bv64)
    requires Precedes(x, y) && !Odd(y)
    ensures Odd(x)
  {
  }

  lemma PrecedesNonZero(x: bv64, y: bv64)
    requires Precedes(x, y)
    ensures y != 0
  {
  }

  lemma {:induction false} ValuePrecedes(x: bv64, y: bv64)
    requires Precedes(x, y)
    ensures Value(x) + 1 == Value(y)
    decreases Value(y)
  {
    hide Half, Odd, Precedes, Value;
    PrecedesNonZero(x, y);
    HalfSmaller(y);
    ValueSplit(x);
    ValueSplit(y);
    if Odd(y) {
      OddPrecedes(x, y);
    } else {
      EvenPrecedes(x, y);
      EvenPrecedesOdd(x, y);
      ValuePrecedes(Half(x), Half(y));
    }
  }

  lemma AtMostHalf(x: bv64, y: bv64)
    requires AtMost(x, y)
    ensures AtMost(Half(x), Half(y))
  {
  }

  lemma AtMostZero(x: bv64, y: bv64)
    requires AtMost(x, y) && y == 0
    ensures x == 0
  {
  }

  function Prev(x: bv64): bv64 { x - 1 }

  lemma AtMostPrev(x: bv64, y: bv64)
    requires AtMost(x, y) && Odd(x) && !Odd(y)
    ensures AtMost(x, Prev(y))
  {
  }

  lemma PrevPrecedes(y: bv64)
    requires y != 0
    ensures Precedes(Prev(y), y)
  {
  }

  // The order of words is the order of numbers.
  lemma {:induction false} ValueAtMost(x: bv64, y: bv64)
    requires AtMost(x, y)
    ensures Value(x) <= Value(y)
    decreases Value(y)
  {
    hide Half, Odd, AtMost, Precedes, Prev, Value;
    AtMostHalf(x, y);
    ValueSplit(x);
    ValueSplit(y);
    if y == 0 {
      AtMostZero(x, y);
    } else {
      HalfSmaller(y);
      if Odd(x) && !Odd(y) {
        AtMostPrev(x, y);
        PrevPrecedes(y);
        ValuePrecedes(Prev(y), y);
        ValueAtMost(x, Prev(y));
      } else {
        ValueAtMost(Half(x), Half(y));
      }
    }
  }

  lemma HalfPow2(x: bv64)
    requires IsPow2(x) && x != 1
    ensures x != 0 && !Odd(x) && IsPow2(Half(x)) && Half(x) < x
  {
  }

  lemma OneValue()
    ensures Value(1) == 1 && Value(Half(1)) == 0
  {
    assert Half(1) == 0 && Odd(1);
  }

  lemma {:induction false} ValuePow2(x: bv64) returns (k: nat)
    requires IsPow2(x)
    ensures Value(x) == Pow2(k) && Value(Half(x)) == if k > 0 then Pow2(k - 1) else 0
    decreases Value(x)
  {
    hide Half, Odd, IsPow2, Value;
    if x == 1 {
      OneValue();
      k := 0;
    } else {
      HalfPow2(x);
      HalfSmaller(x);
      ValueSplit(x);
      k := ValuePow2(Half(x));
      k := k + 1;
    }
  }

  lemma {:induction false} Pow2Grows(a: nat, b: nat)
    requires a <= b
    ensures Pow2(a) <= Pow2(b)
    decreases b
  {
    if a < b { Pow2Grows(a, b - 1); }
  }

  lemma LeastExponent(a: nat, b: nat, n: nat)
    requires n <= Pow2(a) && (a > 0 ==> Pow2(a - 1) < n) && n <= Pow2(b) && (b > 0 ==> Pow2(b - 1) < n)
    ensures a == b
  {
    hide Pow2;
    if a < b { Pow2Grows(a, b - 1); }
    if b < a { Pow2Grows(b, a - 1); }
  }

  lemma Tops(size: bv64, x: bv64)
    requires size != 0 && TopsBy(size - 1, x) && size - 1 < 0x8000_0000_0000_0000
    ensures IsPow2(x) && x >> 1 <= size - 1 && size - 1 < x
  {
    hide IsPow2;
  }

  lemma SizeAtMost(size: bv64, x: bv64)
    requires size != 0 && IsPow2(x) && size - 1 < x
    ensures size <= x
  {
  }

  // ceilToPow2 on 64-bit words yields the block size of the constructor, for all sizes up to 2^63.
  lemma CeilMatches(size: bv64, x: bv64)
    requires size != 0 && size - 1 < 0x8000_0000_0000_0000 && TopsBy(size - 1, x)
    ensures Value(x) == Pow2(CeilLog2(Value(size)))
  {
    hide IsPow2, Value;
    Tops(size, x);
    SizeAtMost(size, x);
    CeilMatchesAt(size, size - 1, x);
  }

  lemma CeilMatchesAt(size: bv64, z: bv64, x: bv64)
    requires Precedes(z, size) && IsPow2(x) && AtMost(Half(x), z) && AtMost(size, x)
    ensures Value(x) == Pow2(CeilLog2(Value(size)))
  {
    hide Half, Odd, AtMost, Precedes, IsPow2, Value, Pow2;
    ValuePrecedes(z, size);
    var k := ValuePow2(x);
    ValueAtMost(size, x);
    ValueAtMost(Half(x), z);
    LeastExponent(k, CeilLog2(Value(size)), Value(size));
  }
}
