/** The parameter set of a module, updated in place, and the merging of the sets of its ports. */
module ParamModule {
  import opened Options
  import opened AddrSpaces
  import opened ParamContainers
  import opened ParamSetting
  import opened ParameterSets

  datatype ModuleParameter =
    | BlockingTLMEnabled(blocking: Blocking)
    | ApproximateDelay(delay: Delay)
    | ApproximateTraversalRate(rate: Rate)

  function KeepNew<V>(o: V, n: V): V { n }

  // Set, then get: the value inside the range, what was there before outside.
  ghost predicate SetTo<V>(before: seq<Entry<V>>, after: seq<Entry<V>>, space: AddrSpace, v: V) {
    forall x :: Lookup(after, x) == if In(x, space) then Some(v) else Lookup(before, x)
  }

  lemma NewWins<V>(before: seq<Entry<V>>, after: seq<Entry<V>>, space: AddrSpace, v: V)
    requires Updated(before, after, space, v, KeepNew)
    ensures SetTo(before, after, space, v)
  {
    hide Lookup;
  }

  // The delay after an export: the own time times the factor of the exported rate, if there is one,
  // plus the exported time; absent only if both are.
  ghost predicate Exported(own: Option<Delay>, rate: Option<Rate>, delay: Option<Delay>, r: Option<Delay>) {
    match (own, delay)
    case (None, None) => r == None
    case (None, Some(e)) => r == Some(e)
    case (Some(o), None) => r.Some? && r.value.time == o.time * Factor(rate)
    case (Some(o), Some(e)) => r.Some? && r.value.time == o.time * Factor(rate) + e.time
  }

  function Factor(rate: Option<Rate>): real { match rate case None => 1.0 case Some(r) => r.factor }

  // Specified if either is, and enabled if either is.
  ghost predicate EnabledWins(a: Option<Blocking>, b: Option<Blocking>, r: Option<Blocking>) {
    (r == None <==> a == None && b == None) && (r == Some(BT_ENABLED) <==> a == Some(BT_ENABLED) || b == Some(BT_ENABLED))
  }

  // Specified if either is, and the shorter of those that are.
  ghost predicate ShorterWins(a: Option<Delay>, b: Option<Delay>, r: Option<Delay>) {
    && (r == None <==> a == None && b == None)
    && (r.Some? ==> r == a || r == b)
    && (r.Some? && a.Some? ==> r.value.time <= a.value.time) && (r.Some? && b.Some? ==> r.value.time <= b.value.time)
  }

  lemma WinnersMean()
    ensures forall a, b :: EnabledWins(a, b, Combine(a, b, MaxBlocking))
    ensures forall a, b :: ShorterWins(a, b, Combine(a, b, MaxDelay))
  {
  }

  lemma ExportAdds(own: Option<Delay>, rate: Option<Rate>, delay: Option<Delay>)
    ensures Exported(own, rate, delay, Combine(Scaled(own, rate), delay, AddDelay))
  {
  }

  lemma ExportMeans(own: seq<Entry<Delay>>, rates: seq<Entry<Rate>>, scaled: seq<Entry<Delay>>, exported: seq<Entry<Delay>>, r: seq<Entry<Delay>>)
    requires ScaledBy(own, rates, scaled) && CombinedAs(scaled, exported, r, AddDelay)
    ensures forall x :: Exported(Lookup(own, x), Lookup(rates, x), Lookup(exported, x), Lookup(r, x))
  {
    hide Lookup, Exported;
    forall x ensures Exported(Lookup(own, x), Lookup(rates, x), Lookup(exported, x), Lookup(r, x)) {
      ExportAdds(Lookup(own, x), Lookup(rates, x), Lookup(exported, x));
    }
  }

  class ParameterSet {
    var blocking: seq<Entry<Blocking>>
    var delay: seq<Entry<Delay>>
    var rate: seq<Entry<Rate>>

    ghost predicate Valid()
      reads this
    {
      WellFormed(blocking) && WellFormed(delay) && WellFormed(rate)
    }

    constructor ()
      ensures Valid() && blocking == [] && delay == [] && rate == []
    {
      blocking, delay, rate := [], [], [];
    }

    // The parameter's own type selects the container; the range gets the value, the rest keeps its own.
    method SetParameter(space: AddrSpace, param: ModuleParameter)
      requires Valid()
      modifies this
      ensures Valid()
      ensures match param
        case BlockingTLMEnabled(b) => SetTo(old(blocking), blocking, space, b) && delay == old(delay) && rate == old(rate)
        case ApproximateDelay(d) => SetTo(old(delay), delay, space, d) && blocking == old(blocking) && rate == old(rate)
        case ApproximateTraversalRate(t) => SetTo(old(rate), rate, space, t) && blocking == old(blocking) && delay == old(delay)
    {
      hide WellFormed, Updated, Lookup, SetTo;
      match param {
        case BlockingTLMEnabled(b) =>
          blocking := SetParameterHelper(blocking, space, b, KeepNew);
          NewWins(old(blocking), blocking, space, b);
        case ApproximateDelay(d) =>
          delay := SetParameterHelper(delay, space, d, KeepNew);
          NewWins(old(delay), delay, space, d);
        case ApproximateTraversalRate(t) =>
          rate := SetParameterHelper(rate, space, t, KeepNew);
          NewWins(old(rate), rate, space, t);
      }
    }

    // Pointwise: enabled wins, and the shorter delay wins because the order on delays is reversed.
    method MergeImportedParam(imported: ParameterSet)
      requires Valid() && imported.Valid() && imported != this
      modifies this
      ensures Valid() && Defragmented(blocking) && Defragmented(delay)
      ensures CombinedAs(old(blocking), imported.blocking, blocking, MaxBlocking)
      ensures CombinedAs(old(delay), imported.delay, delay, MaxDelay)
      ensures forall x :: EnabledWins(Lookup(old(blocking), x), Lookup(imported.blocking, x), Lookup(blocking, x))
      ensures forall x :: ShorterWins(Lookup(old(delay), x), Lookup(imported.delay, x), Lookup(delay, x))
      ensures rate == old(rate)
    {
      hide WellFormed, Defragmented, Lookup, EnabledWins, ShorterWins;
      WinnersMean();
      blocking := CombineContainers(imported.blocking, blocking, MaxBlocking);
      delay := CombineContainers(imported.delay, delay, MaxDelay);
    }

    // Pointwise: blocking flags are or-ed, the own delay is scaled by the exported rate where there
    // is one, and then the exported delay is added.
    method AddExportedParam(exported: ParameterSet)
      requires Valid() && exported.Valid() && exported != this
      modifies this
      ensures Valid() && Defragmented(blocking) && Defragmented(delay)
      ensures CombinedAs(old(blocking), exported.blocking, blocking, MaxBlocking)
      ensures forall x :: Exported(Lookup(old(delay), x), Lookup(exported.rate, x), Lookup(exported.delay, x), Lookup(delay, x))
      ensures rate == old(rate)
    {
      hide WellFormed, Defragmented, Lookup, CombinedAs, ScaledBy, Exported;
      blocking := CombineContainers(exported.blocking, blocking, MaxBlocking);
      var scaled := ScaleDelays(delay, exported.rate);
      delay := CombineContainers(exported.delay, scaled, AddDelay);
      ExportMeans(old(delay), exported.rate, scaled, exported.delay, delay);
    }

    // After the call no parameter is specified outside the allowed ranges.
    method Trim(allowed: seq<AddrSpace>)
      requires Valid() && SortedSpaces(allowed)
      modifies this
      ensures RestrictedTo(old(blocking), allowed, blocking)
      ensures RestrictedTo(old(delay), allowed, delay)
      ensures RestrictedTo(old(rate), allowed, rate)
      ensures Defragmented(blocking) && Defragmented(delay) && Defragmented(rate)
      ensures Valid() <==> NoOverlaps(old(blocking), allowed) && NoOverlaps(old(delay), allowed) && NoOverlaps(old(rate), allowed)
    {
      hide WellFormed, Defragmented, NoOverlaps, RestrictedTo, SortedSpaces;
      blocking := TrimContainer(blocking, allowed);
      delay := TrimContainer(delay, allowed);
      rate := TrimContainer(rate, allowed);
    }

    // operator==
    method Equals(that: ParameterSet) returns (r: bool)
      ensures r <==> blocking == that.blocking && delay == that.delay && rate == that.rate
    {
      var b := EqualContainers(blocking, that.blocking);
      var d := EqualContainers(delay, that.delay);
      var t := EqualContainers(rate, that.rate);
      return b && d && t;
    }
  }

  // ------------------------------------------------------------------ operator== is semantic

  ghost predicate SameValues<V>(a: seq<Entry<V>>, b: seq<Entry<V>>) {
    forall x :: Lookup(a, x) == Lookup(b, x)
  }

  // Two defragmented containers are equal exactly when they agree at every address.
  lemma EqualIffSameValues<V>(a: seq<Entry<V>>, b: seq<Entry<V>>)
    requires WellFormed(a) && WellFormed(b) && Defragmented(a) && Defragmented(b)
    ensures a == b <==> SameValues(a, b)
  {
    if SameValues(a, b) { Canonical(a, b); }
  }

  // ------------------------------------------------------------------ merging in any order

  ghost function Folded<V>(sets: seq<seq<Entry<V>>>, x: int, pick: (V, V) -> V): (r: Option<V>)
    decreases |sets|
  {
    if sets == [] then None
    else Combine(Folded(sets[..|sets| - 1], x, pick), Lookup(sets[|sets| - 1], x), pick)
  }

  ghost predicate Commutes<V(!new)>(pick: (V, V) -> V) {
    && (forall a, b :: pick(a, b) == pick(b, a))
    && (forall a, b, c :: pick(pick(a, b), c) == pick(a, pick(b, c)))
  }

  lemma CombineSwaps<V(!new)>(a: Option<V>, b: Option<V>, c: Option<V>, pick: (V, V) -> V)
    requires Commutes(pick)
    ensures Combine(Combine(a, b, pick), c, pick) == Combine(Combine(a, c, pick), b, pick)
  {
    if a.Some? && b.Some? && c.Some? {
      assert pick(pick(a.value, b.value), c.value) == pick(a.value, pick(b.value, c.value));
      assert pick(pick(a.value, c.value), b.value) == pick(a.value, pick(c.value, b.value));
    }
  }

  function Drop<T>(s: seq<T>, i: nat): seq<T>
    requires i < |s|
  {
    s[..i] + s[i + 1..]
  }

  // Any set may be merged last.
  lemma {:induction false} MergedLast<V(!new)>(sets: seq<seq<Entry<V>>>, i: nat, x: int, pick: (V, V) -> V)
    requires i < |sets| && Commutes(pick)
    ensures Folded(sets, x, pick) == Combine(Folded(Drop(sets, i), x, pick), Lookup(sets[i], x), pick)
    decreases |sets|
  {
    hide Lookup, Combine, Commutes, Drop;
    var n := |sets| - 1;
    DropParts(sets, i);
    if i < n {
      MergedLast(sets[..n], i, x, pick);
      var d := Drop(sets, i);
      CombineSwaps(Folded(d[..n - 1], x, pick), Lookup(sets[i], x), Lookup(sets[n], x), pick);
    }
  }

  lemma DropParts<T>(s: seq<T>, i: nat)
    requires i < |s|
    ensures var (n, d) := (|s| - 1, Drop(s, i));
      && |d| == n && (i == n ==> d == s[..n])
      && (i < n ==> d[..n - 1] == Drop(s[..n], i) && d[n - 1] == s[n] && s[..n][i] == s[i])
  {
  }

  lemma DropMultiset<T>(s: seq<T>, i: nat)
    requires i < |s|
    ensures multiset(s) == multiset(Drop(s, i)) + multiset{s[i]}
    ensures multiset(Drop(s, i)) == multiset(s) - multiset{s[i]}
  {
    assert s == s[..i] + ([s[i]] + s[i + 1..]);
  }

  // The last element of one order is found somewhere in the other.
  lemma LastElsewhere<T>(a: seq<T>, b: seq<T>) returns (i: nat)
    requires multiset(a) == multiset(b) && a != []
    ensures i < |b| && b[i] == a[|a| - 1] && multiset(a[..|a| - 1]) == multiset(Drop(b, i))
  {
    var n := |a| - 1;
    assert a[n] in multiset(a);
    i :| 0 <= i < |b| && b[i] == a[n];
    DropMultiset(b, i);
    DropMultiset(a, n);
    assert Drop(a, n) == a[..n];
  }

  lemma EmptyMultiset<T>(b: seq<T>)
    requires multiset(b) == multiset{}
    ensures b == []
  {
    assert |multiset(b)| == |b|;
  }

  lemma {:induction false} FoldIgnoresOrder<V(!new)>(a: seq<seq<Entry<V>>>, b: seq<seq<Entry<V>>>, x: int, pick: (V, V) -> V)
    requires multiset(a) == multiset(b) && Commutes(pick)
    ensures Folded(a, x, pick) == Folded(b, x, pick)
    decreases |a|
  {
    hide Lookup, Combine, Commutes, Drop;
    if a == [] {
      EmptyMultiset(b);
    } else {
      var i := LastElsewhere(a, b);
      FoldIgnoresOrder(a[..|a| - 1], Drop(b, i), x, pick);
      MergedLast(b, i, x, pick);
    }
  }

  lemma MaxCommutes()
    ensures Commutes(MaxBlocking) && Commutes(MaxDelay)
  {
  }

  ghost function BlockingOf(ports: seq<ParameterSet>): seq<seq<Entry<Blocking>>>
    reads ports
  {
    seq(|ports|, i requires 0 <= i < |ports| reads ports => ports[i].blocking)
  }

  ghost function DelayOf(ports: seq<ParameterSet>): seq<seq<Entry<Delay>>>
    reads ports
  {
    seq(|ports|, i requires 0 <= i < |ports| reads ports => ports[i].delay)
  }

  ghost predicate IsFold<V>(r: seq<Entry<V>>, sets: seq<seq<Entry<V>>>, pick: (V, V) -> V) {
    WellFormed(r) && Defragmented(r) && forall x :: Lookup(r, x) == Folded(sets, x, pick)
  }

  // The merging loop of VpsimModule::refreshParameters.
  method MergePorts(ports: seq<ParameterSet>) returns (merged: ParameterSet)
    requires forall i :: 0 <= i < |ports| ==> ports[i].Valid()
    ensures fresh(merged) && merged.Valid()
    ensures IsFold(merged.blocking, BlockingOf(ports), MaxBlocking)
    ensures IsFold(merged.delay, DelayOf(ports), MaxDelay)
  {
    hide WellFormed, Defragmented, Lookup, IsFold, CombinedAs;
    merged := new ParameterSet();
    ghost var (bs, ds) := (BlockingOf(ports), DelayOf(ports));
    FoldNone(bs, MaxBlocking);
    FoldNone(ds, MaxDelay);
    var k := 0;
    while k < |ports|
      invariant k <= |ports| && fresh(merged) && merged.Valid()
      invariant forall i :: 0 <= i < |ports| ==> ports[i].Valid()
      invariant IsFold(merged.blocking, bs[..k], MaxBlocking) && IsFold(merged.delay, ds[..k], MaxDelay)
    {
      ghost var (b0, d0) := (merged.blocking, merged.delay);
      merged.MergeImportedParam(ports[k]);
      FoldNext(bs, k, b0, merged.blocking, MaxBlocking);
      FoldNext(ds, k, d0, merged.delay, MaxDelay);
      k := k + 1;
    }
    assert bs[..k] == bs && ds[..k] == ds;
  }

  lemma FoldNone<V>(sets: seq<seq<Entry<V>>>, pick: (V, V) -> V)
    ensures IsFold([], sets[..0], pick)
  {
  }

  lemma FoldNext<V>(sets: seq<seq<Entry<V>>>, k: nat, a: seq<Entry<V>>, b: seq<Entry<V>>, pick: (V, V) -> V)
    requires k < |sets| && IsFold(a, sets[..k], pick) && WellFormed(b) && Defragmented(b) && CombinedAs(a, sets[k], b, pick)
    ensures IsFold(b, sets[..k + 1], pick)
  {
    hide WellFormed, Defragmented, Lookup, Combine;
    assert sets[..k + 1][..k] == sets[..k];
  }

  // Merging the same sets in another order gives an equal container.
  lemma MergeOrderIrrelevant<V(!new)>(a: seq<Entry<V>>, b: seq<Entry<V>>, sets: seq<seq<Entry<V>>>, other: seq<seq<Entry<V>>>, pick: (V, V) -> V)
    requires Commutes(pick) && multiset(sets) == multiset(other)
    requires IsFold(a, sets, pick) && IsFold(b, other, pick)
    ensures a == b
  {
    forall x ensures Lookup(a, x) == Lookup(b, x) { FoldIgnoresOrder(sets, other, x, pick); }
    Canonical(a, b);
  }
}
