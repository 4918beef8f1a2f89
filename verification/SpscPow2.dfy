/** The bit trick that rounds a size up to a power of two, on 64-bit words. */
module SpscPow2 {

  predicate IsPow2(p: bv64) {
    p != 0 && p & (p - 1) == 0
  }

  // x is the power of two with x/2 <= z < x, or zero when z has its top bit set.
  predicate TopsBy(z: bv64, x: bv64) {
    if z < 0x8000_0000_0000_0000
    then IsPow2(x) && x >> 1 <= z < x
    else x == 0
  }

  // For z = size - 1 that is the least power of two that is not below size.
  lemma LeastAbove(z: bv64, x: bv64, p: bv64)
    requires TopsBy(z, x) && z < 0x8000_0000_0000_0000
    requires IsPow2(p) && z < p
    ensures x <= p
  {
  }

  // x |= x >> k
  function Smear(x: bv64, k: bv7): bv64
    requires k <= 64
  {
    x | (x >> k)
  }

  function SmearAll(x: bv64): bv64 {
    Smear(Smear(Smear(Smear(Smear(Smear(x, 1), 2), 4), 8), 16), 32)
  }

  // All bits below the highest one end up set.
  lemma SmearAllIsMask(x: bv64)
    ensures SmearAll(x) & (SmearAll(x) + 1) == 0
    ensures x <= SmearAll(x)
  {
  }

  // Below a power of two, smearing stays below it.
  lemma SmearBelow(x: bv64, k: bv7, p: bv64)
    requires IsPow2(p) && x <= p - 1 && k <= 64
    ensures Smear(x, k) <= p - 1
  {
  }

  lemma SmearAllBelow(x: bv64, p: bv64)
    requires IsPow2(p) && x <= p - 1
    ensures SmearAll(x) <= p - 1
  {
    SmearBelow(x, 1, p);
    var x1 := Smear(x, 1);
    SmearBelow(x1, 2, p);
    var x2 := Smear(x1, 2);
    SmearBelow(x2, 4, p);
    var x3 := Smear(x2, 4);
    SmearBelow(x3, 8, p);
    var x4 := Smear(x3, 8);
    SmearBelow(x4, 16, p);
    SmearBelow(Smear(x4, 16), 32, p);
  }

  lemma HalfMask(m: bv64)
    requires m & (m + 1) == 0
    ensures IsPow2((m >> 1) + 1) && (m <= m >> 1 ==> m == 0)
  {
  }

  // No bit above the highest one is set.
  lemma SmearAllIsTight(x: bv64)
    ensures if x == 0 then SmearAll(x) == 0 else SmearAll(x) >> 1 < x
  {
    var m := SmearAll(x);
    SmearAllIsMask(x);
    HalfMask(m);
    if x <= m >> 1 { SmearAllBelow(x, (m >> 1) + 1); }
  }

  lemma MaskPlusOne(z: bv64, m: bv64)
    requires m & (m + 1) == 0 && z <= m && (if z == 0 then m == 0 else m >> 1 < z)
    ensures TopsBy(z, m + 1)
  {
    if z < 0x8000_0000_0000_0000 {
      assert m >> 1 < 0x7fff_ffff_ffff_ffff;
      assert m < 0xffff_ffff_ffff_fffe;
      assert IsPow2(m + 1);
    } else {
      assert m == 0xffff_ffff_ffff_ffff;
    }
  }

  lemma SmearTops(z: bv64)
    ensures TopsBy(z, SmearAll(z) + 1)
  {
    SmearAllIsMask(z);
    SmearAllIsTight(z);
    MaskPlusOne(z, SmearAll(z));
  }

  method CeilToPow2(size: bv64) returns (x: bv64)
    ensures TopsBy(size - 1, x)
  {
    hide Smear, TopsBy;
    x := size - 1;
    ghost var z := x;
    x := Smear(x, 1);
    x := Smear(x, 2);
    x := Smear(x, 4);
    ghost var y := x;
    var i: bv7 := 1;
    while i < 8  // sizeof(size_t)
      invariant i == 1 || i == 2 || i == 4 || i == 8
      invariant i == 1 ==> x == y
      invariant i == 2 ==> x == Smear(y, 8)
      invariant i == 4 ==> x == Smear(Smear(y, 8), 16)
      invariant i == 8 ==> x == Smear(Smear(Smear(y, 8), 16), 32)
      decreases 8 - i
    {
      x := Smear(x, i << 3);
      i := i << 1;
    }
    x := x + 1;
    SmearTops(z);
  }
}
