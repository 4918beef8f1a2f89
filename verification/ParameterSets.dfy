/**
 Parameter sets: the three containers of a module and the operations that combine them.
 */
module ParameterSets {
  import opened Options
  import opened AddrSpaces
  import opened ParamContainers
  import opened ParamSetting

  // ------------------------------------------------------------------ parameter values

  datatype Blocking = BT_DISABLED | BT_ENABLED
  datatype Delay = Delay(time: real)
  datatype Rate = Rate(factor: real)

  // BlockingTLMEnabledParameter::operator<
  predicate BlockingLess(a: Blocking, b: Blocking) { a == BT_DISABLED && b == BT_ENABLED }

  // ApproximateDelayParameter::operator<: the longer delay is the smaller one.
  predicate DelayLess(a: Delay, b: Delay) { a.time > b.time }

  // std::max, which keeps its first argument on a tie
  function MaxBlocking(a: Blocking, b: Blocking): (r: Blocking)
    ensures r == BT_ENABLED <==> a == BT_ENABLED || b == BT_ENABLED
  {
    if BlockingLess(a, b) then b else a
  }

  function MaxDelay(a: Delay, b: Delay): (r: Delay)
    ensures (r == a || r == b) && r.time <= a.time && r.time <= b.time
  {
    if DelayLess(a, b) then b else a
  }

  function AddDelay(a: Delay, b: Delay): Delay { Delay(a.time + b.time) }

  function Scale(d: Delay, r: Rate): Delay { Delay(d.time * r.factor) }

  // ------------------------------------------------------------------ combining containers

  // The pointwise combination of two containers.
  ghost predicate CombinedAs<V>(to: seq<Entry<V>>, from: seq<Entry<V>>, r: seq<Entry<V>>, pick: (V, V) -> V) {
    forall x :: Lookup(r, x) == Combine(Lookup(to, x), Lookup(from, x), pick)
  }

  lemma CombinedNext<V>(to: seq<Entry<V>>, from: seq<Entry<V>>, k: nat, a: seq<Entry<V>>, b: seq<Entry<V>>, pick: (V, V) -> V)
    requires WellFormed(from) && k < |from| && CombinedAs(to, from[..k], a, pick)
    requires Updated(a, b, from[k].space, from[k].value, pick)
    ensures CombinedAs(to, from[..k + 1], b, pick)
  {
    forall x ensures Lookup(b, x) == Combine(Lookup(to, x), Lookup(from[..k + 1], x), pick) {
      assert from[..k + 1] == from[..k] + [from[k]];
      LookupConcat(from[..k], [from[k]], x);
      if In(x, from[k].space) {
        assert forall i :: 0 <= i < k ==> !In(x, from[..k][i].space);
      }
    }
  }

  // The helper of mergeImportedParam and addExportedParam.
  method CombineContainers<V(==)>(from: seq<Entry<V>>, to: seq<Entry<V>>, pick: (V, V) -> V) returns (r: seq<Entry<V>>)
    requires WellFormed(from) && WellFormed(to)
    ensures WellFormed(r) && Defragmented(r) && CombinedAs(to, from, r, pick)
  {
    r := to;
    var k := 0;
    while k < |from|
      invariant k <= |from| && WellFormed(r) && CombinedAs(to, from[..k], r, pick)
    {
      ghost var before := r;
      r := SetParameterHelper(r, from[k].space, from[k].value, pick);
      CombinedNext(to, from, k, before, r, pick);
      k := k + 1;
    }
    assert from[..k] == from;
    r := Defrag(r);
  }

  // ------------------------------------------------------------------ scaling by traversal rates

  // What is left of a delay at an address: scaled where the other module has a traversal rate.
  function Scaled(own: Option<Delay>, rate: Option<Rate>): (r: Option<Delay>) {
    match (own, rate)
    case (Some(d), Some(t)) => Some(Scale(d, t))
    case _ => own
  }

  // The pieces cover exactly the given ranges, each address once, with the scaled delay.
  ghost predicate ScaledOn(pieces: seq<Entry<Delay>>, spaces: seq<AddrSpace>, d: Delay, rates: seq<Entry<Rate>>) {
    && Disjoint(pieces)
    && forall x :: Lookup(pieces, x) == if InAny(x, spaces) then Scaled(Some(d), Lookup(rates, x)) else None
  }

  lemma JoinPieces<V>(a: seq<Entry<V>>, b: seq<Entry<V>>)
    requires Disjoint(a) && Disjoint(b) && forall x :: Lookup(a, x).None? || Lookup(b, x).None?
    ensures Disjoint(a + b)
    ensures forall x :: Lookup(a + b, x) == if Lookup(a, x).Some? then Lookup(a, x) else Lookup(b, x)
  {
    forall i, j | 0 <= i < |a| && 0 <= j < |b| ensures !Intersect(a[i].space, b[j].space) {
      forall x | In(x, a[i].space) ensures !In(x, b[j].space) {
        assert Lookup(a, x).Some?;
      }
    }
    forall x ensures Lookup(a + b, x) == if Lookup(a, x).Some? then Lookup(a, x) else Lookup(b, x) {
      LookupConcat(a, b, x);
    }
  }

  lemma JoinScaled(a: seq<Entry<Delay>>, b: seq<Entry<Delay>>, spaces: seq<AddrSpace>, i: nat, d: Delay, rates: seq<Entry<Rate>>)
    requires i < |spaces| && Apart(spaces)
    requires ScaledOn(a, spaces[..i], d, rates) && ScaledOn(b, [spaces[i]], d, rates)
    ensures ScaledOn(a + b, spaces[..i + 1], d, rates)
  {
    forall x ensures Lookup(a, x).None? || Lookup(b, x).None?
             ensures InAny(x, spaces[..i + 1]) <==> InAny(x, spaces[..i]) || InAny(x, [spaces[i]])
    {
      InAnyNext(x, spaces, i);
      assert InAny(x, [spaces[i]]) <==> In(x, spaces[i]) by {
        if In(x, spaces[i]) { assert In(x, [spaces[i]][0]); }
      }
    }
    JoinPieces(a, b);
  }

  // A range without any rate keeps its delay; one inside the first rate range it meets is scaled.
  lemma ScaledWhole(space: AddrSpace, d: Delay, v: Delay, rates: seq<Entry<Rate>>)
    requires forall x :: In(x, space) ==> Scaled(Some(d), Lookup(rates, x)) == Some(v)
    ensures ScaledOn([Entry(space, v)], [space], d, rates)
  {
    forall x ensures InAny(x, [space]) <==> In(x, space) {
      if In(x, space) { assert In(x, [space][0]); }
    }
  }

  lemma {:induction false} LookupFirst<V>(pc: seq<Entry<V>>, k: nat, x: int)
    requires k < |pc| && In(x, pc[k].space) && forall i :: 0 <= i < k ==> !In(x, pc[i].space)
    ensures Lookup(pc, x) == Some(pc[k].value)
    decreases k
  {
    if k > 0 { LookupFirst(pc[1..], k - 1, x); }
  }

  // The pieces left by one rate range: the part inside it and what is left on either side.
  lemma ConsInAny(both: AddrSpace, others: seq<AddrSpace>, x: int)
    ensures InAny(x, [both] + others) <==> In(x, both) || InAny(x, others)
  {
    var all := [both] + others;
    assert all[0] == both;
    if i :| 0 <= i < |others| && In(x, others[i]) { assert In(x, all[i + 1]); }
    if k :| 0 <= k < |all| && In(x, all[k]) { assert k > 0 ==> all[k] == others[k - 1]; }
  }

  lemma ConsApart(both: AddrSpace, others: seq<AddrSpace>)
    requires Apart(others) && forall i :: 0 <= i < |others| ==> !Intersect(both, others[i])
    ensures Apart([both] + others)
  {
    var all := [both] + others;
    forall i, j | 0 <= i < j < |all| ensures !Intersect(all[i], all[j]) {
      assert all[j] == others[j - 1] && (i > 0 ==> all[i] == others[i - 1]);
    }
  }

  lemma SplitByRate(space: AddrSpace, rate: AddrSpace, x: int)
    requires Intersect(space, rate)
    ensures var all := [Intersection(space, rate)] + RelativeComplement(space, rate);
      Apart(all) && (InAny(x, all) <==> In(x, space))
  {
    hide Apart, RelativeComplement, Intersection, Intersect;
    var both, others := Intersection(space, rate), RelativeComplement(space, rate);
    forall i | 0 <= i < |others| ensures !Intersect(both, others[i]) {
      forall y | In(y, others[i]) ensures !In(y, both) { assert InAny(y, others); }
    }
    ConsApart(both, others);
    ConsInAny(both, others, x);
  }

  // newDelaysHelper: splits one delay entry by the rate ranges it meets.
  method NewDelays(space: AddrSpace, d: Delay, rates: seq<Entry<Rate>>) returns (pieces: seq<Entry<Delay>>)
    ensures ScaledOn(pieces, [space], d, rates)
    decreases Size(space)
  {
    hide ScaledOn, Lookup;
    var k := 0;
    while k < |rates|
      invariant k <= |rates| && forall i :: 0 <= i < k ==> !Intersect(space, rates[i].space)
    {
      var rate := rates[k];
      if Intersect(space, rate.space) {
        var both := Intersection(space, rate.space);
        var others := RelativeComplement(space, rate.space);
        ghost var all := [both] + others;
        forall x | In(x, both) ensures Scaled(Some(d), Lookup(rates, x)) == Some(Scale(d, rate.value)) {
          LookupFirst(rates, k, x);
        }
        ScaledWhole(both, d, Scale(d, rate.value), rates);
        pieces := [Entry(both, Scale(d, rate.value))];
        assert all[..1] == [both];
        SplitByRate(space, rate.space, 0);
        var j := 0;
        while j < |others|
          invariant j <= |others| && ScaledOn(pieces, all[..j + 1], d, rates)
        {
          var more := NewDelays(others[j], d, rates);
          JoinScaled(pieces, more, all, j + 1, d, rates);
          pieces := pieces + more;
          j := j + 1;
        }
        assert all[..j + 1] == all;
        SameCover(pieces, all, space, rate.space, d, rates);
        return;
      }
      k := k + 1;
    }
    forall x | In(x, space) ensures Scaled(Some(d), Lookup(rates, x)) == Some(d) {
      assert Lookup(rates, x).None?;
    }
    ScaledWhole(space, d, d, rates);
    pieces := [Entry(space, d)];
  }

  lemma SameCover(pieces: seq<Entry<Delay>>, all: seq<AddrSpace>, space: AddrSpace, rate: AddrSpace, d: Delay, rates: seq<Entry<Rate>>)
    requires Intersect(space, rate) && all == [Intersection(space, rate)] + RelativeComplement(space, rate)
    requires ScaledOn(pieces, all, d, rates)
    ensures ScaledOn(pieces, [space], d, rates)
  {
    forall x ensures InAny(x, all) <==> InAny(x, [space]) {
      SplitByRate(space, rate, x);
      if In(x, space) { assert In(x, [space][0]); }
    }
  }

  ghost predicate ScaledBy(own: seq<Entry<Delay>>, rates: seq<Entry<Rate>>, r: seq<Entry<Delay>>) {
    forall x :: Lookup(r, x) == Scaled(Lookup(own, x), Lookup(rates, x))
  }

  lemma ScaledNext(own: seq<Entry<Delay>>, k: nat, acc: seq<Entry<Delay>>, more: seq<Entry<Delay>>, rates: seq<Entry<Rate>>)
    requires WellFormed(own) && k < |own| && Disjoint(acc)
    requires ScaledBy(own[..k], rates, acc) && ScaledOn(more, [own[k].space], own[k].value, rates)
    ensures Disjoint(acc + more) && ScaledBy(own[..k + 1], rates, acc + more)
  {
    forall x ensures Lookup(acc, x).None? || Lookup(more, x).None?
             ensures Lookup(own[..k + 1], x) == if In(x, own[k].space) then Some(own[k].value) else Lookup(own[..k], x)
             ensures InAny(x, [own[k].space]) <==> In(x, own[k].space)
    {
      assert own[..k + 1] == own[..k] + [own[k]];
      LookupConcat(own[..k], [own[k]], x);
      if In(x, own[k].space) {
        assert In(x, [own[k].space][0]);
        assert forall i :: 0 <= i < k ==> !In(x, own[..k][i].space);
      }
    }
    JoinPieces(acc, more);
  }

  // The own delays rewritten with the traversal rates of the exported set.
  method ScaleDelays(own: seq<Entry<Delay>>, rates: seq<Entry<Rate>>) returns (r: seq<Entry<Delay>>)
    requires WellFormed(own)
    ensures WellFormed(r) && Defragmented(r) && ScaledBy(own, rates, r)
  {
    r := [];
    var k := 0;
    while k < |own|
      invariant k <= |own| && Disjoint(r) && ScaledBy(own[..k], rates, r)
    {
      var more := NewDelays(own[k].space, own[k].value, rates);
      ScaledNext(own, k, r, more, rates);
      r := r + more;
      k := k + 1;
    }
    assert own[..k] == own;
    ghost var all := r;
    SortedForm(r);
    forall x ensures Lookup(SortEntries(all), x) == Lookup(all, x) { SortKeepsLookup(all, x); }
    r := SortEntries(r);
    r := Defrag(r);
  }

  // ------------------------------------------------------------------ trimming

  // std::set<AddrSpace> in iteration order
  ghost predicate SortedSpaces(spaces: seq<AddrSpace>) {
    forall i, j :: 0 <= i < j < |spaces| ==> Less(spaces[i], spaces[j])
  }

  // The parts of one entry inside the allowed ranges.
  ghost function PartsOf<V>(e: Entry<V>, spaces: seq<AddrSpace>): (r: seq<Entry<V>>)
    decreases |spaces|
  {
    if spaces == [] then [] else
    var n := |spaces| - 1;
    PartsOf(e, spaces[..n]) + Part(e, spaces[n])
  }

  ghost function AllParts<V>(pc: seq<Entry<V>>, spaces: seq<AddrSpace>): (r: seq<Entry<V>>)
    decreases |pc|
  {
    if pc == [] then [] else AllParts(pc[..|pc| - 1], spaces) + PartsOf(pc[|pc| - 1], spaces)
  }

  // The inner loop stops at the first allowed range beyond the entry; nothing is missed.
  lemma {:induction false} NoLaterParts<V>(e: Entry<V>, spaces: seq<AddrSpace>, k: nat)
    requires SortedSpaces(spaces) && k < |spaces| && spaces[k].base > e.space.end
    ensures PartsOf(e, spaces) == PartsOf(e, spaces[..k])
    decreases |spaces|
  {
    var n := |spaces| - 1;
    if k < n {
      NoLaterParts(e, spaces[..n], k);
      assert spaces[..n][..k] == spaces[..k];
      assert Less(spaces[k], spaces[n]);
    }
  }

  lemma InAnyLast(x: int, spaces: seq<AddrSpace>)
    requires spaces != []
    ensures InAny(x, spaces) <==> InAny(x, spaces[..|spaces| - 1]) || In(x, spaces[|spaces| - 1])
  {
    var n := |spaces| - 1;
    if k :| 0 <= k < n && In(x, spaces[..n][k]) { assert In(x, spaces[k]); }
    if k :| 0 <= k < n && In(x, spaces[k]) { assert In(x, spaces[..n][k]); }
  }

  // The part of one entry inside one range, if there is any.
  ghost function Part<V>(e: Entry<V>, space: AddrSpace): (r: seq<Entry<V>>) {
    if Intersect(e.space, space) then [Entry(Intersection(e.space, space), e.value)] else []
  }

  lemma PartLookup<V>(e: Entry<V>, space: AddrSpace, x: int)
    ensures Lookup(Part(e, space), x) == if In(x, e.space) && In(x, space) then Some(e.value) else None
  {
    var r := Part(e, space);
    if r != [] { assert In(x, r[0].space) <==> In(x, e.space) && In(x, space); }
  }

  lemma {:induction false} PartsLookup<V>(e: Entry<V>, spaces: seq<AddrSpace>, x: int)
    ensures Lookup(PartsOf(e, spaces), x) == if In(x, e.space) && InAny(x, spaces) then Some(e.value) else None
    decreases |spaces|
  {
    hide Lookup, Part, InAny;
    if spaces != [] {
      var n := |spaces| - 1;
      PartsLookup(e, spaces[..n], x);
      PartLookup(e, spaces[n], x);
      LookupConcat(PartsOf(e, spaces[..n]), Part(e, spaces[n]), x);
      InAnyLast(x, spaces);
    } else {
      LookupNone<V>(x);
      InAnyNone(x);
    }
  }

  lemma LookupNone<V>(x: int)
    ensures Lookup<V>([], x) == None
  {
  }

  lemma InAnyNone(x: int)
    ensures !InAny(x, [])
  {
  }

  lemma {:induction false} AllPartsLookup<V>(pc: seq<Entry<V>>, spaces: seq<AddrSpace>, x: int)
    ensures Lookup(AllParts(pc, spaces), x) == if InAny(x, spaces) then Lookup(pc, x) else None
    decreases |pc|
  {
    hide InAny, PartsOf;
    if pc != [] {
      var n := |pc| - 1;
      AllPartsLookup(pc[..n], spaces, x);
      PartsLookup(pc[n], spaces, x);
      LookupConcat(AllParts(pc[..n], spaces), PartsOf(pc[n], spaces), x);
      LookupLast(pc, x);
    }
  }

  lemma LookupLast<V>(pc: seq<Entry<V>>, x: int)
    requires pc != []
    ensures var n := |pc| - 1;
      Lookup(pc, x) == if Lookup(pc[..n], x).Some? then Lookup(pc[..n], x) else if In(x, pc[n].space) then Some(pc[n].value) else None
  {
    var n := |pc| - 1;
    assert pc == pc[..n] + [pc[n]];
    LookupConcat(pc[..n], [pc[n]], x);
  }

  // Two allowed ranges overlap inside a range.
  ghost predicate OverlapIn(space: AddrSpace, spaces: seq<AddrSpace>) {
    exists i, j, x :: 0 <= i < j < |spaces| && In(x, space) && In(x, spaces[i]) && In(x, spaces[j])
  }

  lemma OverlapNext(space: AddrSpace, spaces: seq<AddrSpace>)
    requires spaces != []
    ensures var n := |spaces| - 1;
      OverlapIn(space, spaces) <==>
      OverlapIn(space, spaces[..n]) || exists x :: In(x, space) && InAny(x, spaces[..n]) && In(x, spaces[n])
  {
    var n := |spaces| - 1;
    if i, j, x :| 0 <= i < j < |spaces| && In(x, space) && In(x, spaces[i]) && In(x, spaces[j]) {
      assert In(x, spaces[..n][i]);
      if j < n { assert In(x, spaces[..n][j]); } else { assert InAny(x, spaces[..n]); }
    }
    if i, j, x :| 0 <= i < j < n && In(x, space) && In(x, spaces[..n][i]) && In(x, spaces[..n][j]) {
      assert In(x, spaces[i]) && In(x, spaces[j]);
    }
    if x :| In(x, space) && InAny(x, spaces[..n]) && In(x, spaces[n]) {
      var i :| 0 <= i < n && In(x, spaces[..n][i]);
      assert In(x, spaces[i]);
    }
  }

  ghost predicate Exclusive<V>(a: seq<Entry<V>>, b: seq<Entry<V>>) {
    forall x :: Lookup(a, x).None? || Lookup(b, x).None?
  }

  // Two lists of entries joined are disjoint exactly when each is and no address is in both.
  lemma JoinApart<V>(a: seq<Entry<V>>, b: seq<Entry<V>>)
    ensures Disjoint(a + b) <==> Disjoint(a) && Disjoint(b) && Exclusive(a, b)
  {
    var ab := a + b;
    if Disjoint(ab) {
      assert Disjoint(a) by { assert forall i :: 0 <= i < |a| ==> ab[i] == a[i]; }
      assert Disjoint(b) by { assert forall i :: 0 <= i < |b| ==> ab[|a| + i] == b[i]; }
      forall x | Lookup(a, x).Some? ensures Lookup(b, x).None? {
        var i :| 0 <= i < |a| && In(x, a[i].space);
        forall j | 0 <= j < |b| ensures !In(x, b[j].space) { assert !Intersect(ab[i].space, ab[|a| + j].space); }
      }
    }
    if Disjoint(a) && Disjoint(b) && Exclusive(a, b) { JoinPieces(a, b); }
  }

  // A single part joins the others exactly when no address is in both.
  lemma PartJoins<V>(e: Entry<V>, spaces: seq<AddrSpace>, space: AddrSpace)
    ensures Exclusive(PartsOf(e, spaces), Part(e, space)) <==> !exists x :: In(x, e.space) && InAny(x, spaces) && In(x, space)
    ensures Disjoint(Part(e, space))
  {
    hide Lookup, InAny, PartsOf;
    var (a, b) := (PartsOf(e, spaces), Part(e, space));
    forall x ensures (Lookup(a, x).None? || Lookup(b, x).None?) <==> !(In(x, e.space) && InAny(x, spaces) && In(x, space)) {
      PartsLookup(e, spaces, x);
      PartLookup(e, space, x);
    }
  }

  // The parts of one entry are disjoint exactly when no two allowed ranges overlap inside it.
  lemma {:induction false} PartsApart<V>(e: Entry<V>, spaces: seq<AddrSpace>)
    ensures Disjoint(PartsOf(e, spaces)) <==> !OverlapIn(e.space, spaces)
    decreases |spaces|
  {
    hide OverlapIn, Lookup, Disjoint, InAny, Exclusive, Part;
    if spaces != [] {
      var n := |spaces| - 1;
      PartsApart(e, spaces[..n]);
      OverlapNext(e.space, spaces);
      PartJoins(e, spaces[..n], spaces[n]);
      JoinApart(PartsOf(e, spaces[..n]), Part(e, spaces[n]));
    } else {
      NothingApart(e);
    }
  }

  lemma NothingApart<V>(e: Entry<V>)
    ensures Disjoint<V>([]) && !OverlapIn(e.space, [])
  {
  }

  // Entries of a proper container have no address in common with later ones.
  lemma PartsExclusive<V>(pc: seq<Entry<V>>, n: nat, spaces: seq<AddrSpace>)
    requires WellFormed(pc) && n < |pc|
    ensures Exclusive(AllParts(pc[..n], spaces), PartsOf(pc[n], spaces))
  {
    hide AllParts, PartsOf;
    forall x ensures Lookup(AllParts(pc[..n], spaces), x).None? || Lookup(PartsOf(pc[n], spaces), x).None? {
      AllPartsLookup(pc[..n], spaces, x);
      PartsLookup(pc[n], spaces, x);
      if In(x, pc[n].space) { NotEarlier(pc, n, x); }
    }
  }

  lemma NotEarlier<V>(pc: seq<Entry<V>>, n: nat, x: int)
    requires WellFormed(pc) && n < |pc| && In(x, pc[n].space)
    ensures Lookup(pc[..n], x).None?
  {
    forall i | 0 <= i < n ensures !In(x, pc[..n][i].space) { assert pc[i].space.end < pc[n].space.base; }
  }

  ghost predicate NoOverlaps<V>(pc: seq<Entry<V>>, spaces: seq<AddrSpace>) {
    forall k :: 0 <= k < |pc| ==> !OverlapIn(pc[k].space, spaces)
  }

  lemma NoOverlapsLast<V>(pc: seq<Entry<V>>, spaces: seq<AddrSpace>)
    requires pc != []
    ensures NoOverlaps(pc, spaces) <==> NoOverlaps(pc[..|pc| - 1], spaces) && !OverlapIn(pc[|pc| - 1].space, spaces)
  {
    hide OverlapIn;
    var n := |pc| - 1;
    assert forall k :: 0 <= k < n ==> pc[..n][k] == pc[k];
  }

  lemma FrontOfForm<V>(pc: seq<Entry<V>>)
    requires WellFormed(pc) && pc != []
    ensures WellFormed(pc[..|pc| - 1])
  {
  }

  // The parts of a container are disjoint exactly when no two allowed ranges overlap inside an entry.
  lemma {:induction false} AllPartsApart<V>(pc: seq<Entry<V>>, spaces: seq<AddrSpace>)
    requires WellFormed(pc)
    ensures Disjoint(AllParts(pc, spaces)) <==> NoOverlaps(pc, spaces)
    decreases |pc|
  {
    hide OverlapIn, NoOverlaps, Disjoint, WellFormed, Exclusive, PartsOf;
    if pc != [] {
      var n := |pc| - 1;
      FrontOfForm(pc);
      AllPartsApart(pc[..n], spaces);
      PartsApart(pc[n], spaces);
      PartsExclusive(pc, n, spaces);
      JoinApart(AllParts(pc[..n], spaces), PartsOf(pc[n], spaces));
      NoOverlapsLast(pc, spaces);
    } else {
      NoneApart<V>(spaces);
    }
  }

  lemma NoneApart<V>(spaces: seq<AddrSpace>)
    ensures Disjoint<V>([]) && NoOverlaps<V>([], spaces)
  {
  }

  // At most one part is the whole address space.
  lemma {:induction false} PartsWhole<V>(e: Entry<V>, spaces: seq<AddrSpace>)
    requires SortedSpaces(spaces)
    ensures OneWhole(PartsOf(e, spaces))
    ensures (forall i :: 0 <= i < |spaces| ==> !Whole(spaces[i])) || !Whole(e.space) ==> NoWhole(PartsOf(e, spaces))
    decreases |spaces|
  {
    if spaces != [] {
      var n := |spaces| - 1;
      PartsWhole(e, spaces[..n]);
      if Whole(spaces[n]) {
        forall i | 0 <= i < n ensures !Whole(spaces[..n][i]) { assert Less(spaces[i], spaces[n]); }
      }
    }
  }

  lemma {:induction false} AllPartsWhole<V>(pc: seq<Entry<V>>, spaces: seq<AddrSpace>)
    requires WellFormed(pc) && SortedSpaces(spaces)
    ensures OneWhole(AllParts(pc, spaces)) && (NoWhole(pc) ==> NoWhole(AllParts(pc, spaces)))
    decreases |pc|
  {
    hide PartsOf, SortedSpaces;
    if pc != [] {
      var n := |pc| - 1;
      FrontOfForm(pc);
      AllPartsWhole(pc[..n], spaces);
      PartsWhole(pc[n], spaces);
      if n > 0 {
        assert pc[0].space.end < pc[n].space.base;
        assert NoWhole(pc[..n]);
      }
    }
  }

  // Overlapping allowed ranges leave overlapping parts of one entry, with one value.
  lemma {:induction false} PartsValues<V>(e: Entry<V>, spaces: seq<AddrSpace>)
    ensures forall i :: 0 <= i < |PartsOf(e, spaces)| ==>
      PartsOf(e, spaces)[i].value == e.value && forall x :: In(x, PartsOf(e, spaces)[i].space) ==> In(x, e.space)
    decreases |spaces|
  {
    if spaces != [] { PartsValues(e, spaces[..|spaces| - 1]); }
  }

  lemma JoinAgree<V>(a: seq<Entry<V>>, b: seq<Entry<V>>)
    requires Agree(a) && Agree(b) && Exclusive(a, b)
    ensures Agree(a + b)
  {
    var ab := a + b;
    forall i, j | 0 <= i < j < |ab| && Intersect(ab[i].space, ab[j].space) ensures ab[i].value == ab[j].value {
      if i < |a| && j >= |a| {
        ExclusiveApart(a, b, i, j - |a|);
      } else if i >= |a| {
        assert ab[i] == b[i - |a|] && ab[j] == b[j - |a|];
      }
    }
  }

  lemma ExclusiveApart<V>(a: seq<Entry<V>>, b: seq<Entry<V>>, i: nat, j: nat)
    requires Exclusive(a, b) && i < |a| && j < |b|
    ensures !Intersect(a[i].space, b[j].space)
  {
    forall x | In(x, a[i].space) ensures !In(x, b[j].space) {
      assert Lookup(a, x).Some?;
      assert Lookup(b, x).None?;
    }
  }

  lemma PartsAgree<V>(e: Entry<V>, spaces: seq<AddrSpace>)
    ensures Agree(PartsOf(e, spaces))
  {
    hide PartsOf;
    PartsValues(e, spaces);
  }

  lemma {:induction false} AllPartsAgree<V>(pc: seq<Entry<V>>, spaces: seq<AddrSpace>)
    requires WellFormed(pc)
    ensures Agree(AllParts(pc, spaces))
    decreases |pc|
  {
    hide WellFormed, Agree, Exclusive, PartsOf;
    if pc == [] {
      NoneAgree<V>();
    } else {
      var n := |pc| - 1;
      FrontOfForm(pc);
      AllPartsAgree(pc[..n], spaces);
      PartsAgree(pc[n], spaces);
      PartsExclusive(pc, n, spaces);
      JoinAgree(AllParts(pc[..n], spaces), PartsOf(pc[n], spaces));
    }
  }

  lemma NoneAgree<V>()
    ensures Agree<V>([])
  {
  }

  lemma PartsSnoc<V>(e: Entry<V>, spaces: seq<AddrSpace>, k: nat)
    requires k < |spaces|
    ensures PartsOf(e, spaces[..k + 1]) == PartsOf(e, spaces[..k]) + Part(e, spaces[k])
  {
    assert spaces[..k + 1][..k] == spaces[..k];
  }

  lemma AllPartsSnoc<V>(pc: seq<Entry<V>>, spaces: seq<AddrSpace>, p: nat)
    requires p < |pc|
    ensures AllParts(pc[..p + 1], spaces) == AllParts(pc[..p], spaces) + PartsOf(pc[p], spaces)
  {
    assert pc[..p + 1][..p] == pc[..p];
  }

  // The parts, sorted, have the pointwise meaning of trim.
  lemma PartsSorted<V>(pc: seq<Entry<V>>, allowed: seq<AddrSpace>)
    requires WellFormed(pc) && SortedSpaces(allowed)
    ensures var r := SortEntries(AllParts(pc, allowed));
      && Ordered(r) && RestrictedTo(pc, allowed, r) && OneWhole(r)
      && (NoOverlaps(pc, allowed) <==> WellFormed(r))
  {
    hide WellFormed, Ordered, Disjoint, OneWhole, NoOverlaps, Lookup, SortEntries, AllParts, SortedSpaces, InAny;
    var parts := AllParts(pc, allowed);
    AllPartsAgree(pc, allowed);
    AllPartsApart(pc, allowed);
    AllPartsWhole(pc, allowed);
    SortedOrder(parts);
    SortKeepsOneWhole(parts);
    if Disjoint(parts) { SortedForm(parts); }
    if WellFormed(SortEntries(parts)) { SortReflectsForm(parts); }
    forall x ensures Lookup(SortEntries(parts), x) == if InAny(x, allowed) then Lookup(pc, x) else None {
      SortKeepsLookup(parts, x);
      AllPartsLookup(pc, allowed, x);
    }
  }

  lemma TwoParts<V>(e: Entry<V>, a: AddrSpace, b: AddrSpace)
    requires Intersect(e.space, a) && Intersection(e.space, a) == a && Intersect(e.space, b) && Intersection(e.space, b) == b
    ensures AllParts([e], [a, b]) == [Entry(a, e.value), Entry(b, e.value)]
  {
    assert [a, b][..1] == [a] && [a][..0] == [] && [e][..0] == [];
    assert PartsOf(e, []) == [] && AllParts<V>([], [a, b]) == [];
    assert PartsOf(e, [a]) == [Entry(a, e.value)];
    assert PartsOf(e, [a, b]) == PartsOf(e, [a]) + Part(e, b);
  }

  lemma SortTwo<V>(x: Entry<V>, y: Entry<V>)
    requires Less(x.space, y.space)
    ensures SortEntries([x, y]) == [x, y]
  {
    assert [x, y][..1] == [x] && [x][..0] == [];
    assert SortEntries<V>([]) == [] && SortEntries([x]) == [x];
    assert [x][1..] == [];
  }

  // Two allowed ranges that overlap inside an entry leave two overlapping entries.
  lemma TrimOverlap<V>(v: V)
    ensures var (pc, allowed) := ([Entry(Range(0, 9), v)], [Range(0, 5), Range(3, 9)]);
      && WellFormed(pc) && SortedSpaces(allowed) && OverlapIn(pc[0].space, allowed)
      && SortEntries(AllParts(pc, allowed)) == [Entry(Range(0, 5), v), Entry(Range(3, 9), v)]
      && Defragmented([Entry(Range(0, 5), v), Entry(Range(3, 9), v)])
  {
    hide SortEntries, AllParts;
    var e := Entry(Range(0, 9), v);
    var a: AddrSpace, b: AddrSpace := Range(0, 5), Range(3, 9);
    var allowed := [a, b];
    assert In(4, e.space) && In(4, allowed[0]) && In(4, allowed[1]);
    TwoParts(e, a, b);
    SortTwo(Entry(a, v), Entry(b, v));
  }

  ghost predicate RestrictedTo<V>(pc: seq<Entry<V>>, allowed: seq<AddrSpace>, r: seq<Entry<V>>) {
    forall x :: Lookup(r, x) == if InAny(x, allowed) then Lookup(pc, x) else None
  }

  // The inner loop of trim.
  method EntryParts<V>(e: Entry<V>, allowed: seq<AddrSpace>) returns (parts: seq<Entry<V>>)
    requires SortedSpaces(allowed)
    ensures parts == PartsOf(e, allowed)
  {
    parts := [];
    var k := 0;
    while k < |allowed|
      invariant k <= |allowed| && parts == PartsOf(e, allowed[..k])
    {
      PartsSnoc(e, allowed, k);
      if Intersect(e.space, allowed[k]) {
        parts := parts + [Entry(Intersection(e.space, allowed[k]), e.value)];
      } else if allowed[k].base > e.space.end {
        NoLaterParts(e, allowed, k);
        return;
      }
      k := k + 1;
    }
    assert allowed[..k] == allowed;
  }

  // trim: no value is left outside the allowed ranges, and the values inside are untouched.  The
  // result is a proper container exactly when no two allowed ranges overlap inside an entry.
  method TrimContainer<V(==)>(pc: seq<Entry<V>>, allowed: seq<AddrSpace>) returns (r: seq<Entry<V>>)
    requires WellFormed(pc) && SortedSpaces(allowed)
    ensures Ordered(r) && Defragmented(r) && RestrictedTo(pc, allowed, r)
    ensures WellFormed(r) <==> NoOverlaps(pc, allowed)
  {
    hide WellFormed, Ordered, Defragmented, NoOverlaps, SortedSpaces, SortEntries, Lookup, OneWhole, PartsOf, InAny;
    r := [];
    var p := 0;
    while p < |pc|
      invariant p <= |pc| && r == AllParts(pc[..p], allowed)
    {
      var parts := EntryParts(pc[p], allowed);
      AllPartsSnoc(pc, allowed, p);
      r := r + parts;
      p := p + 1;
    }
    assert pc[..p] == pc;
    PartsSorted(pc, allowed);
    r := SortEntries(r);
    r := Defrag(r);
  }
}
