/** A cache set under the least-recently-used policy (CacheSet). */
module LruSet {
  import opened Options
  import opened LruOrder

  datatype Line = Line(tag: nat, valid: bool)

  // The victim while the first i lines have been looked at.
  ghost function VictimUpTo(recency: seq<nat>, r: nat, before: nat, i: nat): nat
    requires r < |recency|
  {
    var n := |recency|;
    var a, b := recency[n - 1], if r == n - 1 && n > 1 then recency[n - 2] else recency[n - 1];
    if Larger(a, b) < i then Larger(a, b) else if a < i then a else if b < i then b else before
  }

  lemma VictimStep(repl: seq<nat>, recency: seq<nat>, k: nat, before: nat, i: nat)
    requires Ranks(repl, recency) && k < |repl| && i < |repl|
    ensures VictimUpTo(recency, repl[k], before, i + 1) ==
      if Bumped(repl[i], repl[k]) == |repl| - 1 then i else VictimUpTo(recency, repl[k], before, i)
  {
    TopRank(repl, recency, k, i);
  }

  lemma VictimBounds(repl: seq<nat>, recency: seq<nat>, k: nat, before: nat)
    requires Ranks(repl, recency) && k < |repl|
    ensures VictimUpTo(recency, repl[k], before, 0) == before
    ensures VictimUpTo(recency, repl[k], before, |repl|) == Elected(recency, repl[k]) < |repl|
  {
    assert recency[|repl| - 1] < |repl|;
    if |repl| > 1 { assert recency[|repl| - 2] < |repl|; }
  }

  class CacheSet {
    const associativity: nat
    const lines: array<Line>
    const repl: array<nat>
    var nextVictim: nat
    ghost var uses: seq<nat>      // the lines used so far
    ghost var recency: seq<nat>   // the lines from the most to the least recently used

    ghost predicate Valid() reads this, repl {
      && 0 < associativity <= repl.Length && associativity <= lines.Length && nextVictim < associativity
      && Ranks(repl[..associativity], recency) && ByLastUse(recency, uses)
    }

    constructor (lineSize: nat, associativity: nat)
      requires 0 < associativity <= lineSize
      ensures Valid() && this.associativity == associativity && uses == [] && nextVictim == recency[associativity - 1]
      ensures fresh(lines) && fresh(repl) && forall i :: 0 <= i < associativity ==> !lines[i].valid
    {
      this.associativity := associativity;
      lines := new Line[lineSize](_ => Line(0, false));
      repl := new nat[lineSize](i requires i >= 0 => if i < associativity then associativity - i - 1 else 0);
      nextVictim := 0;
      uses := [];
      recency := seq(associativity, r requires 0 <= r < associativity => associativity - 1 - r);
      new;
      assert forall i :: 0 <= i < associativity ==> repl[..associativity][i] == associativity - i - 1;
    }

    // The first valid line with the tag.
    method LocateLineInSet(tag: nat) returns (index: Option<nat>)
      requires Valid()
      ensures index.None? ==> forall i :: 0 <= i < associativity ==> lines[i] != Line(tag, true)
      ensures index.Some? ==> index.value < associativity && lines[index.value] == Line(tag, true)
      ensures index.Some? ==> forall i :: 0 <= i < index.value ==> lines[i] != Line(tag, true)
    {
      var i := 0;
      while i < associativity
        invariant i <= associativity && forall j :: 0 <= j < i ==> lines[j] != Line(tag, true)
      {
        if lines[i].tag == tag && lines[i].valid { return Some(i); }
        i := i + 1;
      }
      return None;
    }

    method UpdateReplacementData(line: nat)
      requires Valid() && line < associativity
      modifies this`nextVictim, this`uses, this`recency, repl
      ensures Valid() && uses == old(uses) + [line] && recency == ToFront(old(recency), old(repl[line]))
      ensures nextVictim == Elected(old(recency), old(repl[line]))
    {
      hide ByLastUse, VictimUpTo, Elected;
      ghost var was := repl[..associativity];
      ghost var before := nextVictim;
      VictimBounds(was, recency, line, before);
      var i := 0;
      while i < associativity
        invariant i <= associativity && recency == old(recency) && uses == old(uses)
        invariant forall j :: 0 <= j < associativity ==> repl[j] == if j < i then Bumped(was[j], was[line]) else was[j]
        invariant nextVictim == VictimUpTo(recency, was[line], before, i)
      {
        VictimStep(was, recency, line, before, i);
        if repl[i] < repl[line] { repl[i] := repl[i] + 1; }
        if repl[i] == associativity - 1 { nextVictim := i; }
        i := i + 1;
      }
      repl[line] := 0;
      ghost var now := repl[..associativity];
      Used(was, now, recency, uses, line);
      recency := ToFront(recency, was[line]);
      uses := uses + [line];
    }

    // A hit uses the line found, a miss the victim; the caller gets that line.
    method AccessSet(tag: nat) returns (hit: bool, index: nat)
      requires Valid()
      modifies this`nextVictim, this`uses, this`recency, repl
      ensures Valid() && index < associativity && uses == old(uses) + [index]
      ensures hit <==> exists i :: 0 <= i < associativity && lines[i] == Line(tag, true)
      ensures hit ==> lines[index] == Line(tag, true)
      ensures !hit ==> index == old(nextVictim)
      ensures recency == ToFront(old(recency), old(repl[..associativity])[index])
      ensures nextVictim == Elected(old(recency), old(repl[..associativity])[index])
    {
      var found := LocateLineInSet(tag);
      hit := found.Some?;
      index := if hit then found.value else nextVictim;
      UpdateReplacementData(index);
    }
  }

  lemma Used(was: seq<nat>, now: seq<nat>, recency: seq<nat>, uses: seq<nat>, line: nat)
    requires Ranks(was, recency) && ByLastUse(recency, uses) && line < |was| == |now|
    requires forall j :: 0 <= j < |now| ==> now[j] == if j == line then 0 else Bumped(was[j], was[line])
    ensures was[line] < |recency| && Ranks(now, ToFront(recency, was[line])) && ByLastUse(ToFront(recency, was[line]), uses + [line])
  {
    UseKeepsRanks(was, now, recency, line);
    assert recency[was[line]] == line;
    forall a, b | 0 <= a < b < |recency| ensures recency[a] != recency[b] {
      assert was[recency[a]] == a && was[recency[b]] == b;
    }
    UseKeepsOrder(recency, uses, was[line]);
  }
}
