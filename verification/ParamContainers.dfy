/**
 Containers of parameter values: lists of address ranges with a value each, standing for a
 partial function from addresses to values (paramContainer in ParameterSet).
 */
module ParamContainers {
  import opened AddrSpaces
  import opened Options

  datatype Entry<+V> = Entry(space: AddrSpace, value: V)

  // Sorted by address and pairwise disjoint.
  ghost predicate WellFormed<V>(pc: seq<Entry<V>>) {
    forall i, j :: 0 <= i < j < |pc| ==> pc[i].space.end < pc[j].space.base
  }

  // Sorted by operator<, possibly overlapping.
  ghost predicate Ordered<V>(pc: seq<Entry<V>>) {
    forall i, j :: 0 <= i < j < |pc| ==> !Less(pc[j].space, pc[i].space)
  }

  ghost predicate Disjoint<V>(pc: seq<Entry<V>>) {
    forall i, j :: 0 <= i < j < |pc| ==> !Intersect(pc[i].space, pc[j].space)
  }

  // Where entries overlap they hold the same value.
  ghost predicate Agree<V>(pc: seq<Entry<V>>) {
    forall i, j :: 0 <= i < j < |pc| && Intersect(pc[i].space, pc[j].space) ==> pc[i].value == pc[j].value
  }

  // The value at an address: the first entry that covers it.
  ghost function Lookup<V>(pc: seq<Entry<V>>, x: int): (r: Option<V>)
    ensures r.None? <==> !exists i :: 0 <= i < |pc| && In(x, pc[i].space)
    decreases |pc|
  {
    if pc == [] then None
    else if In(x, pc[0].space) then Some(pc[0].value)
    else
      assert forall i :: 0 < i < |pc| ==> pc[i] == pc[1..][i - 1];
      Lookup(pc[1..], x)
  }

  // getParameterValue
  method GetParameterValue<V>(pc: seq<Entry<V>>, addr: int, default: V) returns (v: V)
    ensures v == match Lookup(pc, addr) case Some(w) => w case None => default
  {
    var k := 0;
    while k < |pc|
      invariant k <= |pc| && Lookup(pc, addr) == Lookup(pc[k..], addr)
    {
      if pc[k].space.end >= addr && pc[k].space.base <= addr {
        return pc[k].value;
      }
      k := k + 1;
    }
    return default;
  }

  // ------------------------------------------------------------------ lookups

  lemma {:induction false} LookupAt<V>(pc: seq<Entry<V>>, i: nat, x: int)
    requires Agree(pc) && i < |pc| && In(x, pc[i].space)
    ensures Lookup(pc, x) == Some(pc[i].value)
    decreases |pc|
  {
    if i > 0 { LookupAt(pc[1..], i - 1, x); }
  }

  // In such a container only the set of entries matters.
  lemma SameEntriesSameLookup<V>(a: seq<Entry<V>>, b: seq<Entry<V>>, x: int)
    requires Agree(a) && Agree(b) && forall e :: e in a <==> e in b
    ensures Lookup(a, x) == Lookup(b, x)
  {
    if i :| 0 <= i < |a| && In(x, a[i].space) {
      LookupAt(a, i, x);
      assert a[i] in b;
      var j :| 0 <= j < |b| && b[j] == a[i];
      LookupAt(b, j, x);
    } else if j :| 0 <= j < |b| && In(x, b[j].space) {
      assert b[j] in a;
    }
  }

  lemma {:induction false} LookupConcat<V>(a: seq<Entry<V>>, b: seq<Entry<V>>, x: int)
    ensures Lookup(a + b, x) == if Lookup(a, x).Some? then Lookup(a, x) else Lookup(b, x)
    decreases |a|
  {
    if a == [] {
      assert a + b == b;
    } else {
      assert (a + b)[1..] == a[1..] + b;
      LookupConcat(a[1..], b, x);
    }
  }

  // ------------------------------------------------------------------ sorting

  // Inserts an entry before the first larger one.
  function InsertEntry<V>(pc: seq<Entry<V>>, e: Entry<V>): (r: seq<Entry<V>>)
    ensures multiset(r) == multiset(pc) + multiset{e}
    decreases |pc|
  {
    if pc == [] then [e]
    else if Less(e.space, pc[0].space) then [e] + pc
    else
      assert pc == [pc[0]] + pc[1..];
      [pc[0]] + InsertEntry(pc[1..], e)
  }

  // std::sort with operator< of AddrSpace.
  function SortEntries<V>(pc: seq<Entry<V>>): (r: seq<Entry<V>>)
    ensures multiset(r) == multiset(pc)
    decreases |pc|
  {
    if pc == [] then [] else
    var n := |pc| - 1;
    assert pc == pc[..n] + [pc[n]];
    InsertEntry(SortEntries(pc[..n]), pc[n])
  }

  lemma {:induction false} InsertKeepsForm<V>(pc: seq<Entry<V>>, e: Entry<V>)
    requires WellFormed(pc) && forall i :: 0 <= i < |pc| ==> !Intersect(pc[i].space, e.space)
    ensures WellFormed(InsertEntry(pc, e))
    decreases |pc|
  {
    if pc != [] && !Less(e.space, pc[0].space) {
      InsertKeepsForm(pc[1..], e);
      var r := InsertEntry(pc[1..], e);
      forall j | 0 <= j < |r| ensures pc[0].space.end < r[j].space.base {
        assert r[j] in multiset(r);
        assert r[j] == e || r[j] in pc[1..];
      }
      FormCons(pc[0], r);
    }
  }

  lemma FormCons<V>(e: Entry<V>, r: seq<Entry<V>>)
    requires WellFormed(r) && forall j :: 0 <= j < |r| ==> e.space.end < r[j].space.base
    ensures WellFormed([e] + r)
  {
  }

  lemma {:induction false} SortedForm<V>(pc: seq<Entry<V>>)
    requires Disjoint(pc)
    ensures WellFormed(SortEntries(pc))
    decreases |pc|
  {
    if pc != [] {
      var n := |pc| - 1;
      SortedForm(pc[..n]);
      var r := SortEntries(pc[..n]);
      forall i | 0 <= i < |r| ensures !Intersect(r[i].space, pc[n].space) {
        assert r[i] in multiset(pc[..n]);
      }
      InsertKeepsForm(r, pc[n]);
    }
  }

  lemma InsertHas<V>(pc: seq<Entry<V>>, e: Entry<V>, x: Entry<V>)
    ensures x in InsertEntry(pc, e) <==> x in pc || x == e
  {
    hide InsertEntry;
    var r := InsertEntry(pc, e);
    assert x in r <==> x in multiset(r);
    assert x in pc <==> x in multiset(pc);
  }

  lemma SortHas<V>(pc: seq<Entry<V>>, x: Entry<V>)
    ensures x in SortEntries(pc) <==> x in pc
  {
    hide SortEntries;
    var r := SortEntries(pc);
    assert x in r <==> x in multiset(r);
    assert x in pc <==> x in multiset(pc);
  }

  // No entry meets the range of e.
  ghost predicate Beside<V>(pc: seq<Entry<V>>, e: Entry<V>) {
    forall x :: x in pc ==> !Intersect(x.space, e.space)
  }

  lemma TailOfForm<V>(h: Entry<V>, t: seq<Entry<V>>)
    requires WellFormed([h] + t)
    ensures WellFormed(t) && forall x :: x in t ==> h.space.end < x.space.base
  {
    var r := [h] + t;
    forall i, j | 0 <= i < j < |t| ensures t[i].space.end < t[j].space.base {
      assert r[i + 1] == t[i] && r[j + 1] == t[j];
    }
    forall x | x in t ensures h.space.end < x.space.base {
      var i :| 0 <= i < |t| && t[i] == x;
      assert r[0] == h && r[i + 1] == x;
    }
  }

  // An insertion that ends in proper form started in proper form, beside the new range.
  lemma {:induction false} InsertReflectsForm<V>(pc: seq<Entry<V>>, e: Entry<V>)
    requires WellFormed(InsertEntry(pc, e))
    ensures WellFormed(pc) && Beside(pc, e)
    decreases |pc|
  {
    hide WellFormed;
    if pc == [] || Less(e.space, pc[0].space) {
      TailOfForm(e, pc);
    } else {
      var t := InsertEntry(pc[1..], e);
      TailOfForm(pc[0], t);
      InsertReflectsForm(pc[1..], e);
      InsertHas(pc[1..], e, e);
      forall j | 0 <= j < |pc[1..]| ensures pc[0].space.end < pc[1..][j].space.base { InsertHas(pc[1..], e, pc[1..][j]); }
      FormCons(pc[0], pc[1..]);
      assert [pc[0]] + pc[1..] == pc;
      assert forall x :: x in pc ==> x == pc[0] || x in pc[1..];
    }
  }

  lemma {:induction false} SortReflectsForm<V>(pc: seq<Entry<V>>)
    requires WellFormed(SortEntries(pc))
    ensures Disjoint(pc)
    decreases |pc|
  {
    hide WellFormed;
    if pc != [] {
      var n := |pc| - 1;
      var r := SortEntries(pc[..n]);
      InsertReflectsForm(r, pc[n]);
      SortReflectsForm(pc[..n]);
      forall i | 0 <= i < n ensures !Intersect(pc[i].space, pc[n].space) {
        assert pc[i] in pc[..n];
        SortHas(pc[..n], pc[i]);
      }
      DisjointSnoc(pc);
    }
  }

  lemma DisjointSnoc<V>(pc: seq<Entry<V>>)
    requires pc != [] && Disjoint(pc[..|pc| - 1]) && forall i :: 0 <= i < |pc| - 1 ==> !Intersect(pc[i].space, pc[|pc| - 1].space)
    ensures Disjoint(pc)
  {
    forall i, j | 0 <= i < j < |pc| ensures !Intersect(pc[i].space, pc[j].space) {
      if j < |pc| - 1 { assert !Intersect(pc[..|pc| - 1][i].space, pc[..|pc| - 1][j].space); }
    }
  }

  // Proper form is order without overlap.
  lemma FormIsDisjoint<V>(pc: seq<Entry<V>>)
    requires Ordered(pc)
    ensures WellFormed(pc) <==> Disjoint(pc)
  {
  }

  // The whole address space, whose end wraps to its own base.
  predicate Whole(a: AddrSpace) { a.base == 0 && a.end + 1 == ADDR_LIMIT }

  ghost predicate OneWhole<V>(pc: seq<Entry<V>>) {
    forall i, j :: 0 <= i < j < |pc| ==> !Whole(pc[i].space) || !Whole(pc[j].space)
  }

  ghost predicate NoWhole<V>(pc: seq<Entry<V>>) {
    forall i :: 0 <= i < |pc| ==> !Whole(pc[i].space)
  }

  lemma {:induction false} InsertKeepsOneWhole<V>(pc: seq<Entry<V>>, e: Entry<V>)
    requires OneWhole(pc) && (Whole(e.space) ==> NoWhole(pc))
    ensures OneWhole(InsertEntry(pc, e))
    decreases |pc|
  {
    if pc != [] && !Less(e.space, pc[0].space) {
      InsertKeepsOneWhole(pc[1..], e);
      var r := InsertEntry(pc[1..], e);
      forall j | 0 <= j < |r| ensures !Whole(pc[0].space) || !Whole(r[j].space) {
        assert r[j] in multiset(r);
        assert r[j] == e || r[j] in pc[1..];
      }
    }
  }

  lemma {:induction false} SortKeepsOneWhole<V>(pc: seq<Entry<V>>)
    requires OneWhole(pc)
    ensures OneWhole(SortEntries(pc))
    decreases |pc|
  {
    if pc != [] {
      var n := |pc| - 1;
      var r := SortEntries(pc[..n]);
      SortKeepsOneWhole(pc[..n]);
      if Whole(pc[n].space) {
        forall i | 0 <= i < |r| ensures !Whole(r[i].space) { assert r[i] in multiset(pc[..n]); }
      }
      InsertKeepsOneWhole(r, pc[n]);
    }
  }

  lemma {:induction false} InsertKeepsOrder<V>(pc: seq<Entry<V>>, e: Entry<V>)
    requires Ordered(pc)
    ensures Ordered(InsertEntry(pc, e))
    decreases |pc|
  {
    if pc != [] && !Less(e.space, pc[0].space) {
      InsertKeepsOrder(pc[1..], e);
      var r := InsertEntry(pc[1..], e);
      forall j | 0 <= j < |r| ensures !Less(r[j].space, pc[0].space) {
        assert r[j] in multiset(r);
        assert r[j] == e || r[j] in pc[1..];
      }
    }
  }

  lemma {:induction false} SortedOrder<V>(pc: seq<Entry<V>>)
    ensures Ordered(SortEntries(pc))
    decreases |pc|
  {
    if pc != [] {
      SortedOrder(pc[..|pc| - 1]);
      InsertKeepsOrder(SortEntries(pc[..|pc| - 1]), pc[|pc| - 1]);
    }
  }

  lemma SortKeepsEntries<V>(pc: seq<Entry<V>>)
    ensures forall e :: e in SortEntries(pc) <==> e in pc
  {
    forall e ensures e in SortEntries(pc) <==> e in pc {
      assert e in multiset(pc) <==> e in pc;
      assert e in multiset(SortEntries(pc)) <==> e in SortEntries(pc);
    }
  }

  lemma SameEntriesAgree<V>(a: seq<Entry<V>>, b: seq<Entry<V>>)
    requires Agree(a) && forall e :: e in b <==> e in a
    ensures Agree(b)
  {
    forall i, j | 0 <= i < j < |b| && Intersect(b[i].space, b[j].space) ensures b[i].value == b[j].value {
      assert b[i] in a && b[j] in a;
    }
  }

  lemma SortKeepsLookup<V>(pc: seq<Entry<V>>, x: int)
    requires Agree(pc)
    ensures Lookup(SortEntries(pc), x) == Lookup(pc, x)
  {
    SortKeepsEntries(pc);
    SameEntriesAgree(pc, SortEntries(pc));
    SameEntriesSameLookup(SortEntries(pc), pc, x);
  }

  // ------------------------------------------------------------------ defragmentation

  // The end of the first range plus one, in 64-bit arithmetic, is the base of the second.
  predicate Mergeable<V(==)>(a: Entry<V>, b: Entry<V>) {
    (a.space.end + 1) % ADDR_LIMIT == b.space.base && a.value == b.value
  }

  ghost predicate Defragmented<V>(pc: seq<Entry<V>>) {
    forall i :: 0 <= i < |pc| - 1 ==> !Mergeable(pc[i], pc[i + 1])
  }

  lemma Neighbours<V>(pc: seq<Entry<V>>, i: nat)
    requires Ordered(pc) && i + 1 < |pc|
    ensures !Less(pc[i + 1].space, pc[i].space)
  {
  }

  // Two neighbours that defrag merges, in an ordered container.  The sum wraps only for two copies
  // of the whole address space.
  lemma MergedCovers<V>(a: Entry<V>, b: Entry<V>)
    requires !Less(b.space, a.space) && Mergeable(a, b)
    ensures a.space.base <= b.space.end < ADDR_LIMIT && a.space.end <= b.space.end
    ensures forall x :: a.space.base <= x <= b.space.end <==> In(x, a.space) || In(x, b.space)
  {
  }

  lemma MergeKeepsLookup<V>(pc: seq<Entry<V>>, i: nat, m: Entry<V>, x: int)
    requires i + 1 < |pc| && pc[i].value == pc[i + 1].value == m.value
    requires forall y :: In(y, m.space) <==> In(y, pc[i].space) || In(y, pc[i + 1].space)
    ensures Lookup(pc[..i] + [m] + pc[i + 2..], x) == Lookup(pc, x)
  {
    assert pc == pc[..i] + ([pc[i], pc[i + 1]] + pc[i + 2..]);
    assert pc[..i] + [m] + pc[i + 2..] == pc[..i] + ([m] + pc[i + 2..]);
    LookupConcat(pc[..i], [pc[i], pc[i + 1]] + pc[i + 2..], x);
    LookupConcat(pc[..i], [m] + pc[i + 2..], x);
    LookupConcat([pc[i], pc[i + 1]], pc[i + 2..], x);
    LookupConcat([m], pc[i + 2..], x);
    assert [pc[i], pc[i + 1]][1..] == [pc[i + 1]];
  }

  // Merging two neighbours keeps the order and, where there is any, the disjointness.
  lemma MergeKeepsForm<V>(pc: seq<Entry<V>>, i: nat, m: Entry<V>)
    requires Ordered(pc) && i + 1 < |pc|
    requires m.space == Range(pc[i].space.base, pc[i + 1].space.end) && pc[i].space.end <= pc[i + 1].space.end
    ensures Ordered(pc[..i] + [m] + pc[i + 2..])
    ensures WellFormed(pc) ==> WellFormed(pc[..i] + [m] + pc[i + 2..])
  {
    var r := pc[..i] + [m] + pc[i + 2..];
    assert forall k :: 0 <= k < |r| ==> r[k] == if k < i then pc[k] else if k == i then m else pc[k + 1];
  }

  // Merging real neighbours does not hide an overlap, and makes no second copy of the whole space.
  lemma MergeReflectsForm<V>(pc: seq<Entry<V>>, i: nat, m: Entry<V>)
    requires Ordered(pc) && OneWhole(pc) && i + 1 < |pc| && Mergeable(pc[i], pc[i + 1])
    requires m.space == Range(pc[i].space.base, pc[i + 1].space.end) && pc[i].space.end <= pc[i + 1].space.end
    ensures OneWhole(pc[..i] + [m] + pc[i + 2..])
    ensures Disjoint(pc[..i] + [m] + pc[i + 2..]) ==> Disjoint(pc)
  {
    var r := pc[..i] + [m] + pc[i + 2..];
    NoWrap(pc, i);
    assert forall k :: 0 <= k < i ==> r[k] == pc[k];
    assert forall k :: i + 1 < k < |pc| ==> r[k - 1] == pc[k];
    MergeOneWhole(pc, i, m, r);
    if Disjoint(r) {
      forall p, q | 0 <= p < q < |pc| ensures !Intersect(pc[p].space, pc[q].space) {
        var p' := if p <= i then p else p - 1;
        var q' := if q <= i then q else q - 1;
        if p' < q' { assert !Intersect(r[p'].space, r[q'].space); }
      }
    }
  }

  lemma NoWrap<V>(pc: seq<Entry<V>>, i: nat)
    requires Ordered(pc) && OneWhole(pc) && i + 1 < |pc| && Mergeable(pc[i], pc[i + 1])
    ensures pc[i].space.end + 1 == pc[i + 1].space.base
  {
    assert !Less(pc[i + 1].space, pc[i].space);
  }

  lemma MergeOneWhole<V>(pc: seq<Entry<V>>, i: nat, m: Entry<V>, r: seq<Entry<V>>)
    requires Ordered(pc) && OneWhole(pc) && i + 1 < |pc| && pc[i].space.end + 1 == pc[i + 1].space.base
    requires m.space == Range(pc[i].space.base, pc[i + 1].space.end)
    requires |r| == |pc| - 1 && r[i] == m && (forall k :: 0 <= k < i ==> r[k] == pc[k]) && (forall k :: i + 1 < k < |pc| ==> r[k - 1] == pc[k])
    ensures OneWhole(r)
  {
    if Whole(m.space) {
      forall k | 0 <= k < |pc| ensures !Whole(pc[k].space) {
        if k < i { assert !Less(pc[i].space, pc[k].space); }
        if k > i + 1 { assert !Less(pc[k].space, pc[i + 1].space); }
      }
    }
    forall p, q | 0 <= p < q < |r| ensures !Whole(r[p].space) || !Whole(r[q].space) {
      var p', q' := if p < i then p else p + 1, if q < i then q else q + 1;
      assert (p != i ==> r[p] == pc[p']) && (q != i ==> r[q] == pc[q']);
    }
  }

  method Defrag<V(==)>(pc: seq<Entry<V>>) returns (r: seq<Entry<V>>)
    requires Ordered(pc)
    ensures Ordered(r) && Defragmented(r)
    ensures WellFormed(pc) ==> WellFormed(r)
    ensures OneWhole(pc) && WellFormed(r) ==> WellFormed(pc)
    ensures forall x :: Lookup(r, x) == Lookup(pc, x)
    decreases |pc|
  {
    hide Lookup, WellFormed, Ordered, OneWhole, Disjoint;
    r := pc;
    if |pc| > 1 {
      var k := 0;
      while k + 1 < |pc|
        invariant k < |pc| && forall i :: 0 <= i < k ==> !Mergeable(pc[i], pc[i + 1])
      {
        if Mergeable(pc[k], pc[k + 1]) {
          Neighbours(pc, k);
          MergedCovers(pc[k], pc[k + 1]);
          var merged := Entry(Range(pc[k].space.base, pc[k + 1].space.end), pc[k].value);
          var next := pc[..k] + [merged] + pc[k + 2..];
          MergeKeepsForm(pc, k, merged);
          FormIsDisjoint(pc);
          FormIsDisjoint(next);
          if OneWhole(pc) { MergeReflectsForm(pc, k, merged); }
          forall x ensures Lookup(next, x) == Lookup(pc, x) { MergeKeepsLookup(pc, k, merged, x); }
          r := Defrag(next);
          return;
        }
        k := k + 1;
      }
    }
  }

  // The address right after the first range is covered with the same value in no defragmented
  // container.
  lemma FirstRangeIsMaximal<V>(pc: seq<Entry<V>>)
    requires WellFormed(pc) && Defragmented(pc) && pc != [] && pc[0].space.end + 1 < ADDR_LIMIT
    ensures Lookup(pc, pc[0].space.end + 1) != Some(pc[0].value)
  {
    var x := pc[0].space.end + 1;
    if i :| 0 <= i < |pc| && In(x, pc[i].space) {
      LookupAt(pc, i, x);
      if i == 1 { assert !Mergeable(pc[0], pc[1]); }
    }
  }

  lemma FirstBase<V>(a: seq<Entry<V>>, b: seq<Entry<V>>)
    requires WellFormed(a) && WellFormed(b) && a != []
    requires forall x :: Lookup(a, x) == Lookup(b, x)
    ensures b != [] && b[0].space.base <= a[0].space.base
  {
    assert Lookup(b, a[0].space.base).Some?;
  }

  // The defragmented form is canonical.
  lemma {:induction false} Canonical<V>(a: seq<Entry<V>>, b: seq<Entry<V>>)
    requires WellFormed(a) && WellFormed(b) && Defragmented(a) && Defragmented(b)
    requires forall x :: Lookup(a, x) == Lookup(b, x)
    ensures a == b
    decreases |a|
  {
    hide Lookup, WellFormed, Defragmented;
    if a == [] {
      if b != [] { FirstBase(b, a); }
    } else {
      FirstBase(a, b);
      FirstBase(b, a);
      FirstRanges(a, b);
      forall x ensures Lookup(a[1..], x) == Lookup(b[1..], x) {
        TailLookup(a, x);
        TailLookup(b, x);
      }
      TailForm(a);
      TailForm(b);
      Canonical(a[1..], b[1..]);
      assert a == [a[0]] + a[1..] && b == [b[0]] + b[1..];
    }
  }

  lemma FirstRanges<V>(a: seq<Entry<V>>, b: seq<Entry<V>>)
    requires WellFormed(a) && WellFormed(b) && Defragmented(a) && Defragmented(b) && a != [] && b != []
    requires a[0].space.base == b[0].space.base
    requires forall x :: Lookup(a, x) == Lookup(b, x)
    ensures a[0] == b[0]
  {
    var base := a[0].space.base;
    assert Lookup(a, base) == Some(a[0].value) && Lookup(b, base) == Some(b[0].value);
    if a[0].space.end < b[0].space.end {
      FirstRangeIsMaximal(a);
    } else if b[0].space.end < a[0].space.end {
      FirstRangeIsMaximal(b);
    }
  }

  lemma TailForm<V>(pc: seq<Entry<V>>)
    requires WellFormed(pc) && Defragmented(pc) && pc != []
    ensures WellFormed(pc[1..]) && Defragmented(pc[1..])
  {
    var t := pc[1..];
    forall i | 0 <= i < |t| - 1 ensures !Mergeable(t[i], t[i + 1]) { assert !Mergeable(pc[i + 1], pc[i + 2]); }
  }

  lemma TailLookup<V>(pc: seq<Entry<V>>, x: int)
    requires WellFormed(pc) && pc != []
    ensures Lookup(pc[1..], x) == if In(x, pc[0].space) then None else Lookup(pc, x)
  {
  }

  // operator== on containers, entry by entry.
  method EqualContainers<V(==)>(a: seq<Entry<V>>, b: seq<Entry<V>>) returns (r: bool)
    ensures r <==> a == b
  {
    if |a| != |b| { return false; }
    var k := 0;
    while k < |a|
      invariant k <= |a| && a[..k] == b[..k]
    {
      if a[k].space != b[k].space || a[k].value != b[k].value { return false; }
      k := k + 1;
    }
    assert a[..k] == a && b[..k] == b;
    return true;
  }
}
