/** Iterators over the keys of an ordered map. */
module OrderedKeys {
  import opened Options

  predicate IsLeast(ks: set<nat>, k: nat) { k in ks && forall j :: j in ks ==> k <= j }

  predicate IsGreatest(ks: set<nat>, k: nat) { k in ks && forall j :: j in ks ==> j <= k }

  lemma {:induction false} HasExtremes(ks: set<nat>)
    requires ks != {}
    ensures exists k :: IsLeast(ks, k)
    ensures exists k :: IsGreatest(ks, k)
  {
    var m :| m in ks;
    var rest := ks - {m};
    if rest == {} {
      assert ks == {m};
      assert IsLeast(ks, m) && IsGreatest(ks, m);
    } else {
      HasExtremes(rest);
      var l :| IsLeast(rest, l);
      var g :| IsGreatest(rest, g);
      assert forall j :: j in ks ==> j in rest || j == m;
      assert IsLeast(ks, if l < m then l else m);
      assert IsGreatest(ks, if g > m then g else m);
    }
  }

  // begin()
  function First(ks: set<nat>): (k: nat)
    requires ks != {}
    ensures IsLeast(ks, k)
  {
    HasExtremes(ks);
    var k :| IsLeast(ks, k);
    k
  }

  function Lower(ks: set<nat>, id: nat): set<nat> { set k | k in ks && k < id }

  // prev(it) for an iterator that is not begin()
  function Before(ks: set<nat>, id: nat): (p: nat)
    requires Lower(ks, id) != {}
    ensures p in ks && p < id && forall j :: j in ks && j < id ==> j <= p
  {
    HasExtremes(Lower(ks, id));
    var p :| IsGreatest(Lower(ks, id), p);
    assert forall j :: j in ks && j < id ==> j in Lower(ks, id);
    p
  }

  // next(it); None is end()
  function After(ks: set<nat>, id: nat): (n: Option<nat>)
    ensures n.None? ==> forall j :: j in ks ==> j <= id
    ensures n.Some? ==> n.value in ks && id < n.value && forall j :: j in ks && id < j ==> n.value <= j
  {
    var higher := set k | k in ks && k > id;
    if higher == {} then
      assert forall j :: j in ks && j > id ==> j in higher;
      None
    else
      assert forall j :: j in ks && j > id ==> j in higher;
      Some(First(higher))
  }

  // prev(it, n); None when it would step before begin()
  function StepBack(ks: set<nat>, id: nat, n: nat): (q: Option<nat>)
    ensures id in ks && q.Some? ==> q.value in ks && q.value <= id
  {
    if n == 0 then Some(id)
    else if Lower(ks, id) == {} then None
    else StepBack(ks, Before(ks, id), n - 1)
  }

  lemma RankStep(ks: set<nat>, id: nat, n: nat)
    requires id in ks && After(ks, id) == Some(n)
    ensures |Lower(ks, n)| == |Lower(ks, id)| + 1
  {
    assert Lower(ks, n) == Lower(ks, id) + {id};
  }

  lemma RankBound(ks: set<nat>, id: nat)
    requires id in ks
    ensures |Lower(ks, id)| < |ks| && (After(ks, id) == None <==> |Lower(ks, id)| + 1 == |ks|)
  {
    var upto := Lower(ks, id) + {id};
    assert |upto| == |Lower(ks, id)| + 1 && upto <= ks;
    if After(ks, id) == None {
      assert upto == ks;
    } else {
      assert upto < ks;
      SmallerSet(upto, ks);
    }
  }

  lemma SmallerSet(a: set<nat>, b: set<nat>)
    requires a < b
    ensures |a| < |b|
  {
    var x :| x in b && x !in a;
    assert |b| == |b - a| + |a * b| && a * b == a;
    assert x in b - a;
  }

  // q is the key n places before id.
  ghost predicate PlacesBefore(ks: set<nat>, id: nat, n: nat, q: nat) {
    q in ks && |Lower(ks, q)| + n == |Lower(ks, id)|
  }

  // Stepping back n places succeeds exactly when there are n keys before, and ends n places before.
  lemma {:induction false} StepBackIs(ks: set<nat>, id: nat, n: nat)
    requires id in ks
    ensures StepBack(ks, id, n).Some? <==> n <= |Lower(ks, id)|
    ensures StepBack(ks, id, n).Some? ==> PlacesBefore(ks, id, n, StepBack(ks, id, n).value)
    decreases n
  {
    if n > 0 && Lower(ks, id) != {} {
      var p := Before(ks, id);
      assert Lower(ks, id) == Lower(ks, p) + {p};
      StepBackIs(ks, p, n - 1);
    }
  }

  lemma RankUnique(ks: set<nat>, p: nat, q: nat)
    requires p in ks && q in ks && |Lower(ks, p)| == |Lower(ks, q)|
    ensures p == q
  {
    if p < q { RankLess(ks, p, q); }
    if q < p { RankLess(ks, q, p); }
  }

  lemma RankLess(ks: set<nat>, p: nat, q: nat)
    requires p in ks && p < q
    ensures |Lower(ks, p)| < |Lower(ks, q)|
  {
    assert p in Lower(ks, q) && Lower(ks, p) < Lower(ks, q);
    SmallerSet(Lower(ks, p), Lower(ks, q));
  }

  // The loop that counts the packets ahead of id; it stops at id or after the whole buffer.
  method PositionIn(ks: set<nat>, id: nat) returns (index: nat)
    ensures index == if id in ks then |Lower(ks, id)| else |ks|
  {
    index := 0;
    var it := if ks == {} then None else Some(First(ks));
    assert ks != {} ==> Lower(ks, First(ks)) == {};
    while index < |ks|
      invariant index <= |ks|
      invariant it.Some? <==> index < |ks|
      invariant it.Some? ==> it.value in ks && |Lower(ks, it.value)| == index && id !in Lower(ks, it.value)
      invariant it.None? ==> id !in ks
    {
      if it.value == id { break; }
      RankBound(ks, it.value);
      var n := After(ks, it.value);
      if n.Some? { RankStep(ks, it.value, n.value); }
      it := n;
      index := index + 1;
    }
    if id in ks && index == |ks| { RankBound(ks, id); }
  }
}
