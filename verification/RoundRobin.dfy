/** The round-robin arbiter of a router output port (C_Router::RoundRobinSearch). */
module RoundRobin {
  import opened Options

  datatype Flit = Flit(target: nat, payload: nat, inputPort: nat)
  type Requests = map<nat, Flit>  // by input port

  // How many ports the search looks at before port p when it starts at s.
  function Turn(n: nat, s: nat, p: nat): int { if s <= p then p - s else p + n - s }

  lemma TurnIs(n: nat, s: nat, i: nat)
    requires i < n && s <= n
    ensures var p := (i + s) % n; p < n && Turn(n, s, p) == i
  {
    if i + s < n {
      SmallMod(i + s, n);
    } else {
      WrapMod(i + s - n, n);
    }
  }

  lemma SmallMod(x: nat, n: nat)
    requires x < n
    ensures x % n == x
  {
  }

  lemma WrapMod(x: nat, n: nat)
    requires x < n
    ensures (x + n) % n == x
  {
    SmallMod(x, n);
  }

  // Port p has a request and comes first in the order of the search.
  ghost predicate Wins(requests: Requests, n: nat, s: nat, p: nat) {
    p < n && p in requests && forall q :: q in requests && q < n ==> Turn(n, s, p) <= Turn(n, s, q)
  }

  method RoundRobinSearch(requests: Requests, s: nat, n: nat) returns (found: Option<Flit>, ghost winner: nat)
    requires s <= n
    ensures found.Some? ==> Wins(requests, n, s, winner) && found.value == requests[winner]
    ensures found.None? <==> forall p :: p in requests ==> p >= n
  {
    winner := 0;
    var i := 0;
    while i < n
      invariant i <= n && forall q :: q in requests && q < n ==> Turn(n, s, q) >= i
    {
      var p := (i + s) % n;
      TurnIs(n, s, i);
      if p in requests {
        return Some(requests[p]), p;
      }
      i := i + 1;
    }
    return None, 0;
  }

  // A grant to another port brings a waiting port nearer by more than the winner's own distance.
  lemma GrantNearer(n: nat, s: nat, p: nat, i: nat)
    requires p < n && i < n && s <= n && Turn(n, s, p) < Turn(n, s, i)
    ensures Turn(n, p + 1, i) == Turn(n, s, i) - Turn(n, s, p) - 1
  {
  }

  // Ports win one after the other while port i waits.
  ghost predicate Overtakes(n: nat, s: nat, i: nat, winners: seq<nat>)
    decreases |winners|
  {
    winners != [] ==>
      winners[0] < n && winners[0] != i && Turn(n, s, winners[0]) < Turn(n, s, i) && Overtakes(n, winners[0] + 1, i, winners[1..])
  }

  // A waiting port is overtaken at most n - 1 times.
  lemma {:induction false} OvertakenAtMost(n: nat, s: nat, i: nat, winners: seq<nat>)
    requires i < n && s <= n && Overtakes(n, s, i, winners)
    ensures |winners| <= Turn(n, s, i) <= n - 1
    decreases |winners|
  {
    if winners != [] {
      GrantNearer(n, s, winners[0], i);
      OvertakenAtMost(n, winners[0] + 1, i, winners[1..]);
    }
  }
}
