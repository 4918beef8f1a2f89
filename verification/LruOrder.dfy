/** Recency order of the lines of a cache set. */
module LruOrder {
  // Ranks and the list of lines from the most to the least recently used are inverse to each other,
  // so that the ranks are a permutation of 0 .. n - 1.
  ghost predicate Ranks(repl: seq<nat>, recency: seq<nat>) {
    && |repl| == |recency|
    && (forall r :: 0 <= r < |recency| ==> recency[r] < |repl| && repl[recency[r]] == r)
    && (forall i :: 0 <= i < |repl| ==> repl[i] < |recency| && recency[repl[i]] == i)
  }

  // The time of the last use of a line; lines never used keep their initial order, the highest first.
  ghost function LastUse(uses: seq<nat>, n: nat, line: nat): int {
    if uses == [] then line - n
    else if uses[|uses| - 1] == line then |uses|
    else LastUse(uses[..|uses| - 1], n, line)
  }

  lemma {:induction false} LastUseBound(uses: seq<nat>, n: nat, line: nat)
    requires line < n
    ensures LastUse(uses, n, line) <= |uses|
  {
    if uses != [] { LastUseBound(uses[..|uses| - 1], n, line); }
  }

  ghost predicate ByLastUse(recency: seq<nat>, uses: seq<nat>) {
    forall a, b :: 0 <= a < b < |recency| ==> LastUse(uses, |recency|, recency[a]) > LastUse(uses, |recency|, recency[b])
  }

  function ToFront(recency: seq<nat>, r: nat): (s: seq<nat>)
    requires r < |recency|
  {
    [recency[r]] + recency[..r] + recency[r + 1..]
  }

  function Bumped(rank: nat, used: nat): nat { if rank < used then rank + 1 else rank }

  // Ranks below the one of line k go up by one and line k gets rank zero: the list is moved to front.
  lemma UseKeepsRanks(repl: seq<nat>, repl': seq<nat>, recency: seq<nat>, k: nat)
    requires Ranks(repl, recency) && k < |repl| == |repl'|
    requires forall i :: 0 <= i < |repl| ==> repl'[i] == if i == k then 0 else Bumped(repl[i], repl[k])
    ensures Ranks(repl', ToFront(recency, repl[k]))
  {
    var r := repl[k];
    var s := ToFront(recency, r);
    forall j | 0 <= j < |s| ensures s[j] < |repl'| && repl'[s[j]] == j {
      var was := if j == 0 then r else if j <= r then j - 1 else j;
      assert s[j] == recency[was] && repl[recency[was]] == was;
    }
    forall i | 0 <= i < |repl'| ensures repl'[i] < |s| && s[repl'[i]] == i {
      assert recency[repl[i]] == i && (i != k ==> repl[i] != r);
    }
  }

  lemma UseKeepsOrder(recency: seq<nat>, uses: seq<nat>, r: nat)
    requires ByLastUse(recency, uses) && r < |recency| && forall a :: 0 <= a < |recency| ==> recency[a] < |recency|
    requires forall a, b :: 0 <= a < b < |recency| ==> recency[a] != recency[b]
    ensures ByLastUse(ToFront(recency, r), uses + [recency[r]])
  {
    var n, s, uses' := |recency|, ToFront(recency, r), uses + [recency[r]];
    assert uses'[..|uses|] == uses;
    forall a, b | 0 <= a < b < |s| ensures LastUse(uses', n, s[a]) > LastUse(uses', n, s[b]) {
      var y := if b <= r then b - 1 else b;
      assert s[b] == recency[y] && LastUse(uses', n, s[b]) == LastUse(uses, n, recency[y]);
      if a == 0 {
        LastUseBound(uses, n, recency[y]);
      } else {
        var x := if a <= r then a - 1 else a;
        assert s[a] == recency[x] && LastUse(uses', n, s[a]) == LastUse(uses, n, recency[x]);
      }
    }
  }

  // The rank of a line counts the lines used after it: lower rank, later use.
  lemma RankIsRecency(repl: seq<nat>, recency: seq<nat>, uses: seq<nat>, i: nat, j: nat)
    requires Ranks(repl, recency) && ByLastUse(recency, uses) && i < |repl| && j < |repl|
    ensures repl[i] < repl[j] <==> LastUse(uses, |repl|, i) > LastUse(uses, |repl|, j)
  {
    assert recency[repl[i]] == i && recency[repl[j]] == j;
  }

  // ------------------------------------------------------------------ the victim

  function Larger(a: nat, b: nat): nat { if a < b then b else a }

  // The line elected while the ranks are updated for line k: the test for the top rank comes before
  // line k is reset, so that line k takes part when it had the top rank itself.
  ghost function Elected(recency: seq<nat>, r: nat): nat
    requires r < |recency|
  {
    var n := |recency|;
    if r == n - 1 && n > 1 then Larger(recency[n - 1], recency[n - 2]) else recency[n - 1]
  }

  // The elected line is the least recently used one exactly when the line just used was not itself
  // the least recently used one, or has a lower index than the line used next after it.
  lemma ElectedIsLeastRecent(recency: seq<nat>, r: nat)
    requires r < |recency| && forall a, b :: 0 <= a < b < |recency| ==> recency[a] != recency[b]
    ensures Elected(recency, r) == ToFront(recency, r)[|recency| - 1] <==>
      (|recency| == 1 || r < |recency| - 1 || recency[|recency| - 1] < recency[|recency| - 2])
    ensures Elected(recency, r) != ToFront(recency, r)[|recency| - 1] ==> Elected(recency, r) == ToFront(recency, r)[0]
  {
  }

  // In a set of two lines that have just been filled one after the other, the line used last is elected.
  lemma MostRecentElected()
    ensures ToFront(ToFront([1, 0], 1), 1) == [1, 0] && Elected(ToFront([1, 0], 1), 1) == 1
  {
    assert ToFront([1, 0], 1) == [0, 1];
  }

  lemma LeastRecentIsLast(recency: seq<nat>, uses: seq<nat>, r: nat)
    requires ByLastUse(recency, uses) && r < |recency|
    ensures (forall a :: 0 <= a < |recency| ==> LastUse(uses, |recency|, recency[r]) <= LastUse(uses, |recency|, recency[a])) <==> r == |recency| - 1
  {
    if r < |recency| - 1 { assert LastUse(uses, |recency|, recency[r]) > LastUse(uses, |recency|, recency[|recency| - 1]); }
  }

  // Lines with the top rank among the first i lines, as the loop meets them.
  lemma TopRank(repl: seq<nat>, recency: seq<nat>, k: nat, i: nat)
    requires Ranks(repl, recency) && k < |repl| && i < |repl|
    ensures var (n, r) := (|repl|, repl[k]);
      Bumped(repl[i], r) == n - 1 <==> i == recency[n - 1] || (r == n - 1 && n > 1 && i == recency[n - 2])
  {
    assert recency[repl[i]] == i;
  }
}
