/** Setting a parameter on a range of addresses, against its pointwise meaning. */
module ParamSetting {
  import opened Options
  import opened AddrSpaces
  import opened ParamContainers

  // The value at an address after a parameter is set there: the policy decides on a conflict.
  function Combine<V>(old': Option<V>, new': Option<V>, pick: (V, V) -> V): (r: Option<V>) {
    match (old', new')
    case (Some(o), Some(n)) => Some(pick(o, n))
    case (None, _) => new'
    case (_, None) => old'
  }

  ghost predicate Conflicts<V>(pc: seq<Entry<V>>, space: AddrSpace) {
    exists i :: 0 <= i < |pc| && Intersect(pc[i].space, space)
  }

  // A range conflicts exactly when some address of it is covered.
  lemma ConflictsIsCovered<V>(pc: seq<Entry<V>>, space: AddrSpace)
    ensures Conflicts(pc, space) <==> exists x :: In(x, space) && Lookup(pc, x).Some?
  {
    if i :| 0 <= i < |pc| && Intersect(pc[i].space, space) {
      var x :| In(x, pc[i].space) && In(x, space);
      assert Lookup(pc, x).Some?;
    }
    if x :| In(x, space) && Lookup(pc, x).Some? {
      var i :| 0 <= i < |pc| && In(x, pc[i].space);
      assert Intersect(pc[i].space, space);
    }
  }

  // r is pc with the parameter set on one range: the policy decides where pc had a value, the new
  // value stands where it had none, and nothing changes elsewhere.
  ghost predicate Updated<V>(pc: seq<Entry<V>>, r: seq<Entry<V>>, space: AddrSpace, param: V, pick: (V, V) -> V) {
    forall x :: Lookup(r, x) ==
                if In(x, space) then Combine(Lookup(pc, x), Some(param), pick) else Lookup(pc, x)
  }

  ghost predicate UpdatedOn<V>(pc: seq<Entry<V>>, r: seq<Entry<V>>, spaces: seq<AddrSpace>, param: V, pick: (V, V) -> V) {
    forall x :: Lookup(r, x) ==
                if InAny(x, spaces) then Combine(Lookup(pc, x), Some(param), pick) else Lookup(pc, x)
  }

  lemma UpdatedNext<V>(a: seq<Entry<V>>, b: seq<Entry<V>>, c: seq<Entry<V>>, spaces: seq<AddrSpace>, i: nat,
                       param: V, pick: (V, V) -> V)
    requires i < |spaces| && Apart(spaces)
    requires UpdatedOn(a, b, spaces[..i], param, pick) && Updated(b, c, spaces[i], param, pick)
    ensures UpdatedOn(a, c, spaces[..i + 1], param, pick)
  {
    forall x ensures Lookup(c, x) ==
                     if InAny(x, spaces[..i + 1]) then Combine(Lookup(a, x), Some(param), pick) else Lookup(a, x)
    {
      InAnyNext(x, spaces, i);
    }
  }

  lemma InAnyNext(x: int, spaces: seq<AddrSpace>, i: nat)
    requires i < |spaces| && Apart(spaces)
    ensures InAny(x, spaces[..i + 1]) <==> InAny(x, spaces[..i]) || In(x, spaces[i])
    ensures !(InAny(x, spaces[..i]) && In(x, spaces[i]))
  {
    assert In(x, spaces[i]) ==> In(x, spaces[..i + 1][i]);
    if k :| 0 <= k < i && In(x, spaces[..i][k]) { assert In(x, spaces[..i + 1][k]); }
  }

  ghost predicate Removed<V>(pc: seq<Entry<V>>, r: seq<Entry<V>>, space: AddrSpace) {
    forall x :: Lookup(r, x) == if In(x, space) then None else Lookup(pc, x)
  }

  lemma RemoveEntry<V>(pc: seq<Entry<V>>, k: nat)
    requires WellFormed(pc) && k < |pc|
    ensures WellFormed(pc[..k] + pc[k + 1..])
    ensures Removed(pc, pc[..k] + pc[k + 1..], pc[k].space)
  {
    forall x ensures Lookup(pc[..k] + pc[k + 1..], x) == if In(x, pc[k].space) then None else Lookup(pc, x) {
      RemoveAt(pc, k, x);
    }
  }

  lemma RemoveAt<V>(pc: seq<Entry<V>>, k: nat, x: int)
    requires WellFormed(pc) && k < |pc|
    ensures Lookup(pc[..k] + pc[k + 1..], x) == if In(x, pc[k].space) then None else Lookup(pc, x)
  {
    assert pc == pc[..k] + ([pc[k]] + pc[k + 1..]);
    LookupConcat(pc[..k], pc[k + 1..], x);
    LookupConcat(pc[..k], [pc[k]] + pc[k + 1..], x);
    LookupConcat([pc[k]], pc[k + 1..], x);
    assert Lookup([pc[k]], x) == if In(x, pc[k].space) then Some(pc[k].value) else None;
    if In(x, pc[k].space) {
      assert forall i :: 0 <= i < k ==> !In(x, pc[..k][i].space);
      var rest := pc[k + 1..];
      assert forall i :: 0 <= i < |rest| ==> !In(x, rest[i].space);
    }
  }

  // The measure of the recursion: a range that conflicts weighs its size, any other nothing.
  ghost function Weight<V>(pc: seq<Entry<V>>, space: AddrSpace): nat {
    if Conflicts(pc, space) then Size(space) else 0
  }

  lemma AppendAndSort<V>(pc: seq<Entry<V>>, e: Entry<V>, pick: (V, V) -> V)
    requires WellFormed(pc) && !Conflicts(pc, e.space)
    ensures WellFormed(SortEntries(pc + [e]))
    ensures Updated(pc, SortEntries(pc + [e]), e.space, e.value, pick)
  {
    assert Disjoint(pc + [e]);
    SortedForm(pc + [e]);
    ConflictsIsCovered(pc, e.space);
    forall x ensures Lookup(SortEntries(pc + [e]), x) == if In(x, e.space) then Some(e.value) else Lookup(pc, x) {
      SortKeepsLookup(pc + [e], x);
      LookupConcat(pc, [e], x);
    }
  }

  // After the conflicting entry is removed and the uncovered part of the new range is set, the
  // conflicting range is free, and so are the ranges of the old entry outside the new one.
  lemma FreeAfterNew<V>(pc: seq<Entry<V>>, r0: seq<Entry<V>>, r1: seq<Entry<V>>, cur: AddrSpace, space: AddrSpace,
                        part: AddrSpace, param: V, pick: (V, V) -> V)
    requires Intersect(space, cur) && forall x :: In(x, part) ==> In(x, cur)
    requires Removed(pc, r0, cur) && UpdatedOn(r0, r1, RelativeComplement(space, cur), param, pick)
    ensures !Conflicts(r1, part)
  {
    ConflictsIsCovered(r1, part);
  }

  lemma FreeAfterBoth<V>(r1: seq<Entry<V>>, r2: seq<Entry<V>>, r3: seq<Entry<V>>, cur: AddrSpace, space: AddrSpace,
                         olds: seq<AddrSpace>, j: nat, v: V, w: V, pick: (V, V) -> V)
    requires Intersect(cur, space) && olds == RelativeComplement(cur, space) && j < |olds|
    requires !Conflicts(r1, olds[j])
    requires Updated(r1, r2, Intersection(cur, space), v, pick) && UpdatedOn(r2, r3, olds[..j], w, pick)
    ensures !Conflicts(r3, olds[j])
  {
    ConflictsIsCovered(r1, olds[j]);
    ConflictsIsCovered(r3, olds[j]);
    forall x | In(x, olds[j]) ensures Lookup(r3, x).None? {
      InAnyNext(x, olds, j);
      assert InAny(x, olds);
    }
  }

  // The pieces together are the update of the whole range.
  lemma Assembled<V>(pc: seq<Entry<V>>, r0: seq<Entry<V>>, r1: seq<Entry<V>>, r2: seq<Entry<V>>, r3: seq<Entry<V>>,
                     k: nat, space: AddrSpace, param: V, pick: (V, V) -> V)
    requires WellFormed(pc) && k < |pc| && Intersect(pc[k].space, space)
    requires Removed(pc, r0, pc[k].space)
    requires UpdatedOn(r0, r1, RelativeComplement(space, pc[k].space), param, pick)
    requires Updated(r1, r2, Intersection(pc[k].space, space), pick(pc[k].value, param), pick)
    requires UpdatedOn(r2, r3, RelativeComplement(pc[k].space, space), pc[k].value, pick)
    ensures Updated(pc, r3, space, param, pick)
  {
    forall x ensures Lookup(r3, x) ==
                     if In(x, space) then Combine(Lookup(pc, x), Some(param), pick) else Lookup(pc, x)
    {
      if In(x, pc[k].space) { LookupAt(pc, k, x); }
    }
  }

  method SetParameterHelper<V>(pc: seq<Entry<V>>, space: AddrSpace, param: V, pick: (V, V) -> V)
    returns (r: seq<Entry<V>>)
    requires WellFormed(pc)
    ensures WellFormed(r) && Updated(pc, r, space, param, pick)
    decreases Weight(pc, space)
  {
    hide Updated, UpdatedOn, Removed, WellFormed, Lookup, Intersection, RelativeComplement, SortEntries, Apart;
    r := pc;
    var p := 0;
    while p < |pc|
      invariant p <= |pc| && forall i :: 0 <= i < p ==> !Intersect(pc[i].space, space)
    {
      var cur := pc[p];
      if Intersect(cur.space, space) {
        assert Conflicts(pc, space);
        var both := Intersection(cur.space, space);
        var oldSpaces := RelativeComplement(cur.space, space);
        var newSpaces := RelativeComplement(space, cur.space);
        RemoveEntry(pc, p);
        r := pc[..p] + pc[p + 1..];
        ghost var r0 := r;
        // the ranges with only the new parameter
        var i := 0;
        UpdatedNone(r0, param, pick);
        while i < |newSpaces|
          invariant i <= |newSpaces| && WellFormed(r)
          invariant UpdatedOn(r0, r, newSpaces[..i], param, pick)
        {
          ghost var before := r;
          r := SetParameterHelper(r, newSpaces[i], param, pick);
          UpdatedNext(r0, before, r, newSpaces, i, param, pick);
          i := i + 1;
        }
        assert newSpaces[..i] == newSpaces;
        ghost var r1 := r;
        // the conflicting range
        FreeAfterNew(pc, r0, r1, cur.space, space, both, param, pick);
        r := SetParameterHelper(r, both, pick(cur.value, param), pick);
        ghost var r2 := r;
        // the ranges with only the old parameter
        var j := 0;
        UpdatedNone(r2, cur.value, pick);
        while j < |oldSpaces|
          invariant j <= |oldSpaces| && WellFormed(r)
          invariant UpdatedOn(r2, r, oldSpaces[..j], cur.value, pick)
        {
          ghost var before := r;
          PiecesInside(cur.space, space, j);
          FreeAfterNew(pc, r0, r1, cur.space, space, oldSpaces[j], param, pick);
          FreeAfterBoth(r1, r2, r, cur.space, space, oldSpaces, j, pick(cur.value, param), cur.value, pick);
          r := SetParameterHelper(r, oldSpaces[j], cur.value, pick);
          UpdatedNext(r2, before, r, oldSpaces, j, cur.value, pick);
          j := j + 1;
        }
        assert oldSpaces[..j] == oldSpaces;
        Assembled(pc, r0, r1, r2, r, p, space, param, pick);
        return;
      }
      p := p + 1;
    }
    AppendAndSort(pc, Entry(space, param), pick);
    r := SortEntries(pc + [Entry(space, param)]);
  }

  lemma UpdatedNone<V>(pc: seq<Entry<V>>, param: V, pick: (V, V) -> V)
    ensures UpdatedOn(pc, pc, [], param, pick)
  {
  }

  lemma PiecesInside(a: AddrSpace, b: AddrSpace, j: nat)
    requires Intersect(a, b) && j < |RelativeComplement(a, b)|
    ensures forall x :: In(x, RelativeComplement(a, b)[j]) ==> In(x, a)
  {
    forall x | In(x, RelativeComplement(a, b)[j]) ensures In(x, a) {
      assert InAny(x, RelativeComplement(a, b));
    }
  }
}
