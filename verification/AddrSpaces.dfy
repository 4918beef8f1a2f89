/** Closed ranges of 64-bit addresses (AddrSpace). */
module AddrSpaces {

  const ADDR_LIMIT: int := 0x1_0000_0000_0000_0000

  datatype Range = Range(base: nat, end: nat)

  // The source never checks that base <= end; every range it builds itself satisfies it.
  type AddrSpace = r: Range | r.base <= r.end < ADDR_LIMIT witness Range(0, 0)

  predicate In(x: int, a: AddrSpace) {
    a.base <= x <= a.end
  }

  function Size(a: AddrSpace): (n: nat)
    ensures n > 0
  {
    a.end - a.base + 1
  }

  // operator<
  predicate Less(a: AddrSpace, b: AddrSpace) {
    a.base < b.base || (a.base == b.base && a.end < b.end)
  }

  // Two bound comparisons decide whether the ranges share an address.
  predicate Intersect(a: AddrSpace, b: AddrSpace)
    ensures Intersect(a, b) <==> exists x :: In(x, a) && In(x, b)
  {
    assert a.base <= b.end && a.end >= b.base ==>
      (In(a.base, a) && In(a.base, b)) || (In(b.base, a) && In(b.base, b));
    a.base <= b.end && a.end >= b.base
  }

  function Intersection(a: AddrSpace, b: AddrSpace): (r: AddrSpace)
    ensures Intersect(a, b) ==> forall x :: In(x, r) <==> In(x, a) && In(x, b)
  {
    if !Intersect(a, b) then Range(0, 0)
    else Range(if a.base < b.base then b.base else a.base, if a.end < b.end then a.end else b.end)
  }

  predicate InAny(x: int, spaces: seq<AddrSpace>) {
    exists i :: 0 <= i < |spaces| && In(x, spaces[i])
  }

  predicate Apart(spaces: seq<AddrSpace>) {
    forall i, j :: 0 <= i < j < |spaces| ==> !Intersect(spaces[i], spaces[j])
  }

  // a minus b, as at most two ranges.  Callers only ask when the ranges intersect; otherwise the
  // pieces need not lie inside a.
  function RelativeComplement(a: AddrSpace, b: AddrSpace): (r: seq<AddrSpace>)
    ensures |r| <= 2
    ensures Intersect(a, b) ==> forall x :: InAny(x, r) <==> In(x, a) && !In(x, b)
    ensures Intersect(a, b) ==> Apart(r) && forall i :: 0 <= i < |r| ==> Size(r[i]) < Size(a)
  {
    var left: seq<AddrSpace> := if a.base < b.base then [Range(a.base, b.base - 1)] else [];
    var right: seq<AddrSpace> := if a.end > b.end then [Range(b.end + 1, a.end)] else [];
    var r := left + right;
    assert a.base < b.base ==> r[0] == Range(a.base, b.base - 1);
    assert a.end > b.end ==> r[|left|] == Range(b.end + 1, a.end);
    r
  }
}
