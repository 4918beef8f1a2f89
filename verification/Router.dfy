/** One routing step of a router of the cycle-accurate network (C_Router::DoRoute). */
module Router {
  import opened OrderedKeys
  import opened RoundRobin

  type PerOutput = map<nat, Requests>
  type Routing = map<nat, nat>

  function Out(route: Routing, target: nat): nat { if target in route then route[target] else 0 }
  function At(per: PerOutput, o: nat): Requests { if o in per then per[o] else map[] }
  function State(states: map<nat, nat>, o: nat): nat { if o in states then states[o] else 0 }
  function Sent(outputs: map<nat, seq<Flit>>, o: nat): seq<Flit> { if o in outputs then outputs[o] else [] }

  // A held flit sits in the map of its own output port, and the maps hold nothing else.
  ghost predicate Placed(held: Requests, per: PerOutput, n: nat, route: Routing) {
    && (forall i :: i in held ==> i < n && held[i].inputPort == i && InMap(per, Out(route, held[i].target), i, held[i]))
    && (forall o, i :: i in At(per, o) ==> i in held && At(per, o)[i] == held[i] && o == Out(route, held[i].target))
  }

  ghost predicate InMap(per: PerOutput, o: nat, i: nat, f: Flit) { i in At(per, o) && At(per, o)[i] == f }

  // A flit as the router marks it when it reads it.
  function Mark(f: Flit, i: nat): Flit { f.(inputPort := i) }
  ghost function Marked(s: seq<Flit>, i: nat): seq<Flit> { seq(|s|, k requires 0 <= k < |s| => Mark(s[k], i)) }

  ghost function HeldFrom(held: Requests, i: nat): seq<Flit> { if i in held then [held[i]] else [] }

  // Per input port: what arrived is what was sent, then what is held, then what is still to be read.
  ghost predicate Conserved(arrived: seq<seq<Flit>>, sent: seq<seq<Flit>>, held: Requests, inputs: seq<seq<Flit>>) {
    && |arrived| == |sent| == |inputs|
    && forall i :: 0 <= i < |inputs| ==> arrived[i] == sent[i] + HeldFrom(held, i) + Marked(inputs[i], i)
  }

  // The flits of a log that came in by port i.
  ghost function FromPort(log: seq<Flit>, i: nat): (s: seq<Flit>) {
    if log == [] then [] else
    var m := |log| - 1;
    FromPort(log[..m], i) + if log[m].inputPort == i then [log[m]] else []
  }

  // The flits that are bound for output o.
  ghost function ToPort(flits: seq<Flit>, route: Routing, o: nat): (s: seq<Flit>) {
    if flits == [] then [] else
    var m := |flits| - 1;
    ToPort(flits[..m], route, o) + if Out(route, flits[m].target) == o then [flits[m]] else []
  }

  // What was written to output o from port i is what port i has sent to o, in that order; nothing
  // else was written.
  ghost predicate Flow(outputs: map<nat, seq<Flit>>, sent: seq<seq<Flit>>, route: Routing, o: nat, i: nat) {
    FromPort(Sent(outputs, o), i) == if i < |sent| then ToPort(sent[i], route, o) else []
  }

  ghost predicate Flows(outputs: map<nat, seq<Flit>>, sent: seq<seq<Flit>>, route: Routing) {
    forall o, i :: Flow(outputs, sent, route, o, i)
  }

  lemma FromPortSnoc(log: seq<Flit>, f: Flit, i: nat)
    ensures FromPort(log + [f], i) == FromPort(log, i) + if f.inputPort == i then [f] else []
  {
    assert (log + [f])[..|log|] == log;
  }

  lemma ToPortSnoc(flits: seq<Flit>, f: Flit, route: Routing, o: nat)
    ensures ToPort(flits + [f], route, o) == ToPort(flits, route, o) + if Out(route, f.target) == o then [f] else []
  {
    assert (flits + [f])[..|flits|] == flits;
  }

  lemma {:induction false} ToPortJoin(a: seq<Flit>, b: seq<Flit>, route: Routing, o: nat)
    ensures ToPort(a + b, route, o) == ToPort(a, route, o) + ToPort(b, route, o)
    decreases |b|
  {
    if b == [] {
      assert a + b == a;
    } else {
      var m := |b| - 1;
      assert (a + b)[..|a| + m] == a + b[..m];
      ToPortJoin(a, b[..m], route, o);
    }
  }

  lemma SendFlows(outputs: map<nat, seq<Flit>>, sent: seq<seq<Flit>>, route: Routing, o: nat, f: Flit)
    requires Flows(outputs, sent, route) && f.inputPort < |sent| && o == Out(route, f.target)
    ensures var p := f.inputPort; Flows(outputs[o := Sent(outputs, o) + [f]], sent[p := sent[p] + [f]], route)
  {
    hide FromPort, ToPort, Out;
    var p := f.inputPort;
    var (outputs', sent') := (outputs[o := Sent(outputs, o) + [f]], sent[p := sent[p] + [f]]);
    forall q, i ensures Flow(outputs', sent', route, q, i) {
      assert Flow(outputs, sent, route, q, i);
      FromPortSnoc(Sent(outputs, o), f, i);
      if i == p { ToPortSnoc(sent[p], f, route, q); }
    }
  }

  // Every flit on an output has its target routed there; a target without an entry goes to output 0.
  lemma WrittenWhereRouted(outputs: map<nat, seq<Flit>>, sent: seq<seq<Flit>>, route: Routing, o: nat, k: nat)
    requires Flows(outputs, sent, route) && k < |Sent(outputs, o)|
    ensures var f := Sent(outputs, o)[k];
      f.inputPort < |sent| && if f.target in route then route[f.target] == o else o == 0
  {
    hide FromPort, ToPort, Out, Sent;
    var f := Sent(outputs, o)[k];
    assert Flow(outputs, sent, route, o, f.inputPort);
    FromPortHas(Sent(outputs, o), k);
    if f.inputPort < |sent| { ToPortOnly(sent[f.inputPort], route, o, f); }
  }

  lemma {:induction false} FromPortHas(log: seq<Flit>, k: nat)
    requires k < |log|
    ensures log[k] in FromPort(log, log[k].inputPort)
  {
    var m := |log| - 1;
    if k < m {
      assert log[..m][k] == log[k];
      FromPortHas(log[..m], k);
    }
  }

  lemma {:induction false} ToPortOnly(flits: seq<Flit>, route: Routing, o: nat, f: Flit)
    requires f in ToPort(flits, route, o)
    ensures f in flits && o == if f.target in route then route[f.target] else 0
  {
    var m := |flits| - 1;
    if f in ToPort(flits[..m], route, o) { ToPortOnly(flits[..m], route, o, f); }
  }

  // Per flow nothing overtakes, nothing is lost and nothing is sent twice: what an output got from
  // an input is a prefix of what arrived there for it; the rest is held or unread.
  lemma FlowInOrder(outputs: map<nat, seq<Flit>>, arrived: seq<seq<Flit>>, sent: seq<seq<Flit>>, held: Requests, inputs: seq<seq<Flit>>, route: Routing, o: nat, i: nat)
    requires Flows(outputs, sent, route) && Conserved(arrived, sent, held, inputs) && i < |inputs|
    ensures ToPort(arrived[i], route, o) == FromPort(Sent(outputs, o), i) + ToPort(HeldFrom(held, i) + Marked(inputs[i], i), route, o)
  {
    hide FromPort, ToPort, Out;
    assert Flow(outputs, sent, route, o, i);
    var rest := HeldFrom(held, i) + Marked(inputs[i], i);
    assert arrived[i] == sent[i] + rest;
    ToPortJoin(sent[i], rest, route, o);
  }

  // ------------------------------------------------------------------ reading an input port

  // The first k inputs have been read where nothing was held.
  ghost predicate ReadUpTo(held0: Requests, inputs0: seq<seq<Flit>>, held: Requests, inputs: seq<seq<Flit>>, k: nat) {
    && |inputs| == |inputs0| >= k
    && (forall i: nat :: i in held <==> i in held0 || (i < k && inputs0[i] != []))
    && (forall i: nat :: i in held ==> held[i] == if i in held0 then held0[i] else inputs0[i][0].(inputPort := i))
    && (forall i :: 0 <= i < |inputs| ==> inputs[i] == if i < k && i !in held0 && inputs0[i] != [] then inputs0[i][1..] else inputs0[i])
  }

  lemma ReadNone(held: Requests, inputs: seq<seq<Flit>>)
    ensures ReadUpTo(held, inputs, held, inputs, 0)
  {
  }

  lemma ReadOne(held0: Requests, inputs0: seq<seq<Flit>>, held: Requests, inputs: seq<seq<Flit>>, k: nat)
    requires ReadUpTo(held0, inputs0, held, inputs, k) && k < |inputs|
    ensures Reads(held, inputs, k) ==> ReadUpTo(held0, inputs0, held[k := Mark(inputs[k][0], k)], inputs[k := inputs[k][1..]], k + 1)
    ensures !Reads(held, inputs, k) ==> ReadUpTo(held0, inputs0, held, inputs, k + 1)
  {
  }

  lemma ReadKeepsHeld(held0: Requests, inputs0: seq<seq<Flit>>, held: Requests, inputs: seq<seq<Flit>>, k: nat, i: nat)
    requires ReadUpTo(held0, inputs0, held, inputs, k) && i in held0
    ensures i in held && held[i] == held0[i]
  {
  }

  predicate Reads(held: Requests, inputs: seq<seq<Flit>>, i: nat)
    requires i < |inputs|
  {
    i !in held && inputs[i] != []
  }

  lemma ReadKeeps(held: Requests, per: PerOutput, n: nat, route: Routing, i: nat, f: Flit)
    requires Placed(held, per, n, route) && i !in held && i < n && f.inputPort == i
    ensures var o := Out(route, f.target); Placed(held[i := f], per[o := At(per, o)[i := f]], n, route)
  {
    hide Out;
    var o := Out(route, f.target);
    var (held', per') := (held[i := f], per[o := At(per, o)[i := f]]);
    forall j | j in held' ensures j < n && held'[j].inputPort == j && InMap(per', Out(route, held'[j].target), j, held'[j]) {
      if j != i { assert InMap(per, Out(route, held[j].target), j, held[j]); }
    }
    forall q, j | j in At(per', q) ensures j in held' && At(per', q)[j] == held'[j] && q == Out(route, held'[j].target) {
      if j != i || q != o { assert j in At(per, q); }
    }
  }

  lemma ReadConserves(arrived: seq<seq<Flit>>, sent: seq<seq<Flit>>, held: Requests, inputs: seq<seq<Flit>>, i: nat)
    requires Conserved(arrived, sent, held, inputs) && i < |inputs| && Reads(held, inputs, i)
    ensures Conserved(arrived, sent, held[i := Mark(inputs[i][0], i)], inputs[i := inputs[i][1..]])
  {
    var s := inputs[i];
    assert Marked(s, i) == [Mark(s[0], i)] + Marked(s[1..], i);
    assert sent[i] + HeldFrom(held, i) + Marked(s, i) == sent[i] + [Mark(s[0], i)] + Marked(s[1..], i);
  }

  // ------------------------------------------------------------------ serving an output port

  lemma SendKeeps(held: Requests, per: PerOutput, n: nat, route: Routing, o: nat, p: nat)
    requires Placed(held, per, n, route) && p in At(per, o)
    ensures p in held && p < n && At(per, o)[p] == held[p] && held[p].inputPort == p && o == Out(route, held[p].target)
    ensures Placed(held - {p}, per[o := At(per, o) - {p}], n, route)
  {
    hide Out;
    var (held', per') := (held - {p}, per[o := At(per, o) - {p}]);
    forall j | j in held' ensures j < n && held'[j].inputPort == j && InMap(per', Out(route, held'[j].target), j, held'[j]) {
      assert InMap(per, Out(route, held[j].target), j, held[j]);
    }
    forall q, j | j in At(per', q) ensures j in held' && At(per', q)[j] == held'[j] && q == Out(route, held'[j].target) {
      assert j in At(per, q);
    }
  }

  lemma SendConserves(arrived: seq<seq<Flit>>, sent: seq<seq<Flit>>, held: Requests, inputs: seq<seq<Flit>>, p: nat)
    requires Conserved(arrived, sent, held, inputs) && p < |inputs| && p in held
    ensures Conserved(arrived, sent[p := sent[p] + [held[p]]], held - {p}, inputs)
  {
  }

  // What a step does at one output port: the first requesting port in turn is granted, if there is
  // room for a flit and any request.
  ghost predicate Turned(n: nat, free: bool, reqs: Requests, s: nat, log: seq<Flit>, reqs': Requests, s': nat, log': seq<Flit>) {
    if free && reqs != map[] then exists p :: Grants(n, reqs, s, log, reqs', s', log', p)
    else reqs' == reqs && s' == s && log' == log
  }

  ghost predicate Grants(n: nat, reqs: Requests, s: nat, log: seq<Flit>, reqs': Requests, s': nat, log': seq<Flit>, p: nat) {
    Wins(reqs, n, s, p) && reqs' == reqs - {p} && s' == p + 1 && log' == log + [reqs[p]]
  }

  class Router {
    const n: nat                       // NbIn
    const route: Routing               // TargetToOutPort
    var inputs: seq<seq<Flit>>
    var held: Requests                 // RequestsBeeingRouted
    var per: PerOutput                 // RequestsBeeingRoutedPerOutputPort
    var states: map<nat, nat>          // RoundRobinStatesPerPort
    var outputs: map<nat, seq<Flit>>   // everything written to each output
    ghost var arrived: seq<seq<Flit>>
    ghost var sent: seq<seq<Flit>>     // by input port

    ghost predicate Valid() reads this {
      && |inputs| == n && Placed(held, per, n, route) && Conserved(arrived, sent, held, inputs)
      && Flows(outputs, sent, route) && (forall o :: o in states ==> states[o] <= n)
    }

    constructor (n: nat, route: Routing)
      ensures Valid() && this.n == n && this.route == route && held == map[] && forall i :: 0 <= i < n ==> arrived[i] == []
    {
      this.n, this.route := n, route;
      inputs := seq(n, _ => []);
      held, per, states, outputs := map[], map[], map[], map[];
      arrived, sent := seq(n, _ => []), seq(n, _ => []);
    }

    // A flit arrives in an input fifo.
    method Arrive(i: nat, f: Flit)
      requires Valid() && i < n
      modifies this`inputs, this`arrived
      ensures Valid() && inputs == old(inputs)[i := old(inputs)[i] + [f]] && arrived == old(arrived)[i := old(arrived)[i] + [f.(inputPort := i)]]
    {
      hide Placed, Flows;
      assert Marked(inputs[i] + [f], i) == Marked(inputs[i], i) + [Mark(f, i)];
      inputs := inputs[i := inputs[i] + [f]];
      arrived := arrived[i := arrived[i] + [Mark(f, i)]];
    }

    // An input port without a held flit is read.
    method ReadInput(i: nat)
      requires Valid() && i < n
      modifies this`inputs, this`held, this`per
      ensures Valid()
      ensures old(Reads(held, inputs, i)) ==> held == old(held)[i := old(inputs)[i][0].(inputPort := i)] && inputs == old(inputs)[i := old(inputs)[i][1..]]
      ensures !old(Reads(held, inputs, i)) ==> held == old(held) && inputs == old(inputs)
    {
      hide Placed, Conserved, Flows;
      if i !in held && inputs[i] != [] {
        var f := Mark(inputs[i][0], i);
        ReadKeeps(held, per, n, route, i, f);
        ReadConserves(arrived, sent, held, inputs, i);
        inputs := inputs[i := inputs[i][1..]];
        held := held[i := f];
        var o := Out(route, f.target);
        per := per[o := At(per, o)[i := f]];
      }
    }

    // The granted flit leaves the router.
    method Send(o: nat, f: Flit)
      requires Valid() && f.inputPort in At(per, o) && f == At(per, o)[f.inputPort]
      modifies this`held, this`per, this`states, this`outputs, this`sent
      ensures Valid() && f.inputPort < n && |sent| == n && sent == old(sent)[f.inputPort := old(sent)[f.inputPort] + [f]]
      ensures held == old(held) - {f.inputPort} && per == old(per)[o := old(At(per, o)) - {f.inputPort}]
      ensures states == old(states)[o := f.inputPort + 1] && outputs == old(outputs)[o := old(Sent(outputs, o)) + [f]]
    {
      hide Placed, Conserved, Flows;
      ghost var p := f.inputPort;
      SendKeeps(held, per, n, route, o, p);
      ConservedLengths(arrived, sent, held, inputs);
      SendConserves(arrived, sent, held, inputs, p);
      SendFlows(outputs, sent, route, o, f);
      sent := sent[p := sent[p] + [f]];
      outputs := outputs[o := Sent(outputs, o) + [f]];
      held := held - {f.inputPort};
      per := per[o := At(per, o) - {f.inputPort}];
      states := states[o := f.inputPort + 1];
    }

    method ServeOutput(o: nat, free: bool)
      requires Valid()
      modifies this`held, this`per, this`states, this`outputs, this`sent
      ensures Valid()
      ensures Turned(n, free, old(At(per, o)), old(State(states, o)), old(Sent(outputs, o)), At(per, o), State(states, o), Sent(outputs, o))
      ensures forall q :: q != o ==> At(per, q) == old(At(per, q)) && State(states, q) == old(State(states, q)) && Sent(outputs, q) == old(Sent(outputs, q))
    {
      hide Placed, Conserved, Flows, Wins;
      AllBelow(held, per, n, route, o);
      if free {
        var found;
        ghost var winner;
        found, winner := RoundRobinSearch(At(per, o), State(states, o), n);
        if found.Some? {
          WinnerRequests(At(per, o), n, State(states, o), winner);
          SendKeeps(held, per, n, route, o, winner);
          ghost var reqs, s, log := At(per, o), State(states, o), Sent(outputs, o);
          Send(o, found.value);
          assert Grants(n, reqs, s, log, At(per, o), State(states, o), Sent(outputs, o), winner);
        }
      }
    }

    // One step: every input port is read once, then every output port with room is served; `read`
    // and `waiting` are the maps between the two halves.
    method DoRoute(free: set<nat>) returns (ghost read: PerOutput, ghost waiting: Requests)
      requires Valid()
      modifies this`inputs, this`held, this`per, this`states, this`outputs, this`sent
      ensures Valid() && Placed(waiting, read, n, route) && ReadUpTo(old(held), old(inputs), waiting, inputs, n)
      ensures OutputsDone(n, free, read, old(states), old(outputs), per, states, outputs, {})
    {
      hide Placed, Conserved, Flows, OutputsDone, ReadUpTo;
      ReadNone(held, inputs);
      var i := 0;
      while i < n
        invariant i <= n && Valid() && states == old(states) && outputs == old(outputs) && sent == old(sent)
        invariant ReadUpTo(old(held), old(inputs), held, inputs, i)
      {
        ReadOne(old(held), old(inputs), held, inputs, i);
        ReadInput(i);
        i := i + 1;
      }
      read, waiting := per, held;
      var todo := per.Keys;
      NoneDone(n, free, per, states, outputs);
      while todo != {}
        invariant Valid() && OutputsDone(n, free, read, old(states), old(outputs), per, states, outputs, todo)
        invariant ReadUpTo(old(held), old(inputs), waiting, inputs, n)
        decreases |todo|
      {
        var o := First(todo);
        ghost var (per0, states0, outputs0) := (per, states, outputs);
        ServeOutput(o, o in free);
        OneDone(n, free, read, old(states), old(outputs), per0, states0, outputs0, per, states, outputs, todo, o);
        todo := todo - {o};
      }
    }
  }

  lemma WinnerRequests(requests: Requests, n: nat, s: nat, p: nat)
    requires Wins(requests, n, s, p)
    ensures p < n && p in requests
  {
  }

  lemma ConservedLengths(arrived: seq<seq<Flit>>, sent: seq<seq<Flit>>, held: Requests, inputs: seq<seq<Flit>>)
    requires Conserved(arrived, sent, held, inputs)
    ensures |arrived| == |sent| == |inputs|
  {
  }

  // All requests come from input ports.
  lemma AllBelow(held: Requests, per: PerOutput, n: nat, route: Routing, o: nat)
    requires Placed(held, per, n, route)
    ensures forall p :: p in At(per, o) ==> p < n
  {
    forall p | p in At(per, o) ensures p < n { assert p in held; }
  }

  // The outputs that are not left to do have been served.
  ghost predicate OutputsDone(n: nat, free: set<nat>, read: PerOutput, states: map<nat, nat>, outputs: map<nat, seq<Flit>>,
                              per: PerOutput, states': map<nat, nat>, outputs': map<nat, seq<Flit>>, todo: set<nat>) {
    forall o :: OutputDone(n, free, read, states, outputs, per, states', outputs', todo, o)
  }

  ghost predicate OutputDone(n: nat, free: set<nat>, read: PerOutput, states: map<nat, nat>, outputs: map<nat, seq<Flit>>,
                             per: PerOutput, states': map<nat, nat>, outputs': map<nat, seq<Flit>>, todo: set<nat>, o: nat) {
    if o in todo then At(per, o) == At(read, o) && State(states', o) == State(states, o) && Sent(outputs', o) == Sent(outputs, o)
    else Turned(n, o in free, At(read, o), State(states, o), Sent(outputs, o), At(per, o), State(states', o), Sent(outputs', o))
  }

  lemma NoneDone(n: nat, free: set<nat>, per: PerOutput, states: map<nat, nat>, outputs: map<nat, seq<Flit>>)
    ensures OutputsDone(n, free, per, states, outputs, per, states, outputs, per.Keys)
  {
  }

  lemma OneDone(n: nat, free: set<nat>, read: PerOutput, states: map<nat, nat>, outputs: map<nat, seq<Flit>>,
                per0: PerOutput, states0: map<nat, nat>, outputs0: map<nat, seq<Flit>>,
                per: PerOutput, states': map<nat, nat>, outputs': map<nat, seq<Flit>>, todo: set<nat>, o: nat)
    requires OutputsDone(n, free, read, states, outputs, per0, states0, outputs0, todo) && o in todo
    requires Turned(n, o in free, At(per0, o), State(states0, o), Sent(outputs0, o), At(per, o), State(states', o), Sent(outputs', o))
    requires forall q :: q != o ==> At(per, q) == At(per0, q) && State(states', q) == State(states0, q) && Sent(outputs', q) == Sent(outputs0, q)
    ensures OutputsDone(n, free, read, states, outputs, per, states', outputs', todo - {o})
  {
    hide Turned, At, State, Sent;
    forall q ensures OutputDone(n, free, read, states, outputs, per, states', outputs', todo - {o}, q) {
      assert OutputDone(n, free, read, states, outputs, per0, states0, outputs0, todo, q);
    }
  }

  // ------------------------------------------------------------------ fairness

  // A port that waits through a step keeps its flit; if its output was served, another port had its
  // turn and the waiting port has come nearer. A port that does not wait any longer was sent.
  lemma WaitsThrough(n: nat, free: bool, reqs: Requests, s: nat, log: seq<Flit>, reqs': Requests, s': nat, log': seq<Flit>, i: nat)
    requires Turned(n, free, reqs, s, log, reqs', s', log') && i in reqs && i < n && s <= n
    ensures reqs'.Keys <= reqs.Keys && s' <= n
    ensures i in reqs' ==> reqs'[i] == reqs[i] && (if free then Turn(n, s', i) < Turn(n, s, i) && |log'| == |log| + 1 else s' == s && log' == log)
    ensures i !in reqs' ==> log' == log + [reqs[i]]
  {
    if free {
      var p :| Grants(n, reqs, s, log, reqs', s', log', p);
      if p != i { GrantNearer(n, s, p, i); }
    }
  }

  // In terms of the router: the flit held from port i is still held, or it was written to its output.
  lemma HeldThrough(n: nat, free: set<nat>, route: Routing, read: PerOutput, waiting: Requests, states: map<nat, nat>, outputs: map<nat, seq<Flit>>,
                    held: Requests, per: PerOutput, states': map<nat, nat>, outputs': map<nat, seq<Flit>>, i: nat)
    requires Placed(waiting, read, n, route) && Placed(held, per, n, route) && i in waiting
    requires OutputsDone(n, free, read, states, outputs, per, states', outputs', {})
    requires State(states, Out(route, waiting[i].target)) <= n
    ensures var o := Out(route, waiting[i].target);
      && i < n
      && (i in held && o in free ==> Turn(n, State(states', o), i) < Turn(n, State(states, o), i) && |Sent(outputs', o)| == |Sent(outputs, o)| + 1)
      && (i in held && o !in free ==> State(states', o) == State(states, o) && Sent(outputs', o) == Sent(outputs, o))
      && (i in held ==> held[i] == waiting[i])
      && (i !in held ==> Sent(outputs', o) == Sent(outputs, o) + [waiting[i]])
  {
    var o := Out(route, waiting[i].target);
    assert InMap(read, o, i, waiting[i]);
    assert OutputDone(n, free, read, states, outputs, per, states', outputs', {}, o);
    hide Turned, Turn, Out;
    WaitsThrough(n, o in free, At(read, o), State(states, o), Sent(outputs, o), At(per, o), State(states', o), Sent(outputs', o), i);
    if i in held {
      var q := Out(route, held[i].target);
      assert InMap(per, q, i, held[i]);
      OnlyShrinks(n, free, read, states, outputs, per, states', outputs', q, i);
      assert i in At(read, q) && q == o;
    } else {
      assert i !in At(per, o);
    }
  }

  lemma OnlyShrinks(n: nat, free: set<nat>, read: PerOutput, states: map<nat, nat>, outputs: map<nat, seq<Flit>>,
                    per: PerOutput, states': map<nat, nat>, outputs': map<nat, seq<Flit>>, q: nat, i: nat)
    requires OutputsDone(n, free, read, states, outputs, per, states', outputs', {}) && i in At(per, q)
    ensures i in At(read, q)
  {
    assert OutputDone(n, free, read, states, outputs, per, states', outputs', {}, q);
  }

  datatype Event = Arrival(port: nat, flit: Flit) | Step(free: set<nat>)

  // The number of steps of a run in which output o has room.
  ghost function Rooms(events: seq<Event>, o: nat): (k: nat) {
    if events == [] then 0 else
    var m := |events| - 1;
    Rooms(events[..m], o) + if events[m].Step? && o in events[m].free then 1 else 0
  }

  lemma RoomsNext(events: seq<Event>, k: nat, o: nat)
    requires k < |events|
    ensures Rooms(events[..k + 1], o) == Rooms(events[..k], o) + if events[k].Step? && o in events[k].free then 1 else 0
  {
    assert events[..k + 1][..k] == events[..k];
  }

  // The flit held from port i over any run of arrivals and steps, up to the moment it is sent:
  // `others` flits of other ports are written to its output before it, at most n - 1; and the run
  // cannot end before it is sent if n of its steps, wherever they fall, have room in the output.
  method Deliver(router: Router, i: nat, events: seq<Event>) returns (left: bool, ghost others: nat)
    requires router.Valid() && i in router.held
    requires forall e :: e in events && e.Arrival? ==> e.port < router.n
    modifies router
    ensures router.Valid() && others <= router.n - 1
    ensures var f := old(router.held)[i];
      var o := if f.target in router.route then router.route[f.target] else 0;
      && |Sent(router.outputs, o)| == old(|Sent(router.outputs, o)|) + others + (if left then 1 else 0)
      && (!left ==> i in router.held && router.held[i] == f)
      && (left ==> Sent(router.outputs, o)[|Sent(router.outputs, o)| - 1] == f)
      && (Rooms(events, o) >= router.n ==> left)
  {
    hide Placed, Conserved, Flows, OutputsDone, ReadUpTo, Out, Turn, Sent, Rooms;
    ghost var f := router.held[i];
    ghost var o := Out(router.route, f.target);
    OutIs(router.route, f.target);
    ghost var start := |Sent(router.outputs, o)|;
    left, others := false, 0;
    HeldBelow(router.held, router.per, router.n, router.route, i);
    TurnBounds(router.n, State(router.states, o), i);
    NoRooms(events, o);
    var k := 0;
    while k < |events|
      invariant k <= |events| && router.Valid() && i in router.held && router.held[i] == f
      invariant others <= router.n - 1 && others + Turn(router.n, State(router.states, o), i) <= router.n - 1
      invariant others == Rooms(events[..k], o) && |Sent(router.outputs, o)| == start + others
    {
      RoomsNext(events, k, o);
      match events[k] {
        case Arrival(port, flit) => router.Arrive(port, flit);
        case Step(free) =>
          ghost var _ := StepFor(router, free, i, f);
          if i !in router.held { return true, others; }
          if o in free { others := others + 1; }
      }
      k := k + 1;
    }
    assert events[..|events|] == events;
    TurnBounds(router.n, State(router.states, o), i);
  }

  lemma OutIs(route: Routing, target: nat)
    ensures Out(route, target) == if target in route then route[target] else 0
  {
  }

  // One step seen from the flit held from port i.
  method StepFor(router: Router, free: set<nat>, i: nat, ghost f: Flit) returns (ghost gone: bool)
    requires router.Valid() && i in router.held && router.held[i] == f
    modifies router`inputs, router`held, router`per, router`states, router`outputs, router`sent
    ensures router.Valid() && gone == (i !in router.held)
    ensures var o := Out(router.route, f.target);
      if gone then Sent(router.outputs, o) == old(Sent(router.outputs, o)) + [f]
      else && router.held[i] == f && 0 <= Turn(router.n, State(router.states, o), i)
           && if o in free then
                && |Sent(router.outputs, o)| == old(|Sent(router.outputs, o)|) + 1
                && Turn(router.n, State(router.states, o), i) < Turn(router.n, old(State(router.states, o)), i)
              else
                && Sent(router.outputs, o) == old(Sent(router.outputs, o))
                && State(router.states, o) == old(State(router.states, o))
  {
    hide Placed, Conserved, Flows, OutputsDone, ReadUpTo, Out, Turn, Sent;
    ghost var (states, outputs, held, inputs) := (router.states, router.outputs, router.held, router.inputs);
    HeldBelow(router.held, router.per, router.n, router.route, i);
    ghost var read, waiting;
    read, waiting := router.DoRoute(free);
    ReadKeepsHeld(held, inputs, waiting, router.inputs, router.n, i);
    HeldThrough(router.n, free, router.route, read, waiting, states, outputs, router.held, router.per, router.states, router.outputs, i);
    gone := i !in router.held;
    TurnBounds(router.n, State(router.states, Out(router.route, f.target)), i);
  }

  lemma NoRooms(events: seq<Event>, o: nat)
    ensures Rooms(events[..0], o) == 0
  {
  }

  lemma HeldBelow(held: Requests, per: PerOutput, n: nat, route: Routing, i: nat)
    requires Placed(held, per, n, route) && i in held
    ensures i < n
  {
  }

  lemma TurnBounds(n: nat, s: nat, i: nat)
    requires i < n && s <= n
    ensures 0 <= Turn(n, s, i) <= n - 1
  {
  }
}
