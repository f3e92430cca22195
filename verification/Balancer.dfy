/** The load balancer (src/proxy/loader.cc): a queue of batches served by one thread, and the
    round-robin that spreads each batch over the backends from the first one on. */
module Balancer {
  import opened Basics
  import opened DivMod

  type Backend = string

  // ----- one batch -----

  /** The assignment of the first `n` sockets; `emplace` keeps an earlier one. */
  function Assigned(sockes: seq<int>, backends: seq<Backend>, n: nat): map<int, Backend>
    requires n <= |sockes| && (n > 0 ==> |backends| > 0)
  {
    if n == 0 then map[]
    else
      var m := Assigned(sockes, backends, n - 1);
      if sockes[n - 1] in m then m else m[sockes[n - 1] := backends[(n - 1) % |backends|]]
  }

  function Balanced(sockes: seq<int>, backends: seq<Backend>): map<int, Backend>
    requires sockes != [] ==> backends != []
  {
    Assigned(sockes, backends, |sockes|)
  }

  /** `backends` is the map of backends in its iteration order. Were it empty, a non-empty
      batch would read past its end. */
  method Balancing(sockes: seq<int>, backends: seq<Backend>) returns (m: map<int, Backend>)
    requires sockes != [] ==> backends != []
    ensures m == Balanced(sockes, backends)
  {
    m := map[];
    var iter := 0;
    for k := 0 to |sockes|
      invariant m == Assigned(sockes, backends, k)
      invariant k < |sockes| ==> iter == k % |backends|
    {
      if sockes[k] !in m {
        m := m[sockes[k] := backends[iter]];
      }
      iter := NextCursor(iter, k, |backends|);
    }
  }

  /** `++iter`, wrapping at the end. */
  function NextCursor(iter: nat, k: nat, n: nat): (next: nat)
    requires n > 0 && iter == k % n
    ensures next == (k + 1) % n
  {
    CountStep(k, n);
    if iter + 1 == n then 0 else iter + 1
  }

  /** The assignment covers exactly the batch, with backends only. */
  lemma {:induction false} AssignedTotal(sockes: seq<int>, backends: seq<Backend>, n: nat)
    requires n <= |sockes| && (n > 0 ==> |backends| > 0)
    ensures Assigned(sockes, backends, n).Keys == set k | 0 <= k < n :: sockes[k]
    ensures forall s :: s in Assigned(sockes, backends, n) ==> Assigned(sockes, backends, n)[s] in backends
  {
    if n > 0 {
      AssignedTotal(sockes, backends, n - 1);
    }
  }

  // ----- fairness within a batch -----

  /** The sockets assigned to a backend. */
  function Load(m: map<int, Backend>, b: Backend): set<int> {
    set s | s in m && m[s] == b
  }

  lemma {:induction false} LoadIsShare(sockes: seq<int>, backends: seq<Backend>, n: nat, j: nat)
    requires n <= |sockes| && j < |backends|
    requires Distinct(sockes) && Distinct(backends)
    ensures |Load(Assigned(sockes, backends, n), backends[j])| == Share(n, |backends|, j)
  {
    if n > 0 {
      LoadIsShare(sockes, backends, n - 1, j);
      AssignedTotal(sockes, backends, n - 1);
      var m, m' := Assigned(sockes, backends, n - 1), Assigned(sockes, backends, n);
      var s, i := sockes[n - 1], (n - 1) % |backends|;
      assert s !in m && m' == m[s := backends[i]];
      if i == j {
        assert Load(m', backends[j]) == Load(m, backends[j]) + {s};
      } else {
        assert backends[i] != backends[j];
        assert Load(m', backends[j]) == Load(m, backends[j]);
      }
    }
  }

  /** Of a batch of m distinct sockets, the backend at position j of n gets exactly
      floor((m + n - 1 - j) / n). */
  lemma FairWithinBatch(sockes: seq<int>, backends: seq<Backend>, j: nat)
    requires j < |backends|
    requires Distinct(sockes) && Distinct(backends)
    ensures |Load(Balanced(sockes, backends), backends[j])| == (|sockes| + |backends| - 1 - j) / |backends|
  {
    LoadIsShare(sockes, backends, |sockes|, j);
    ShareIs(|sockes|, |backends|, j);
  }

  // ----- unfairness across batches -----

  /** What position `j` gets from all these batches. */
  function LoadOfAll(batches: seq<seq<int>>, backends: seq<Backend>, j: nat): nat
    requires j < |backends|
  {
    if |batches| == 0 then 0
    else
      LoadOfAll(batches[..|batches| - 1], backends, j) +
      |Load(Balanced(batches[|batches| - 1], backends), backends[j])|
  }

  /** How many batches end between the two positions. */
  function EndingBetween(batches: seq<seq<int>>, n: nat, i: nat, j: nat): nat
    requires i < j < n
  {
    if |batches| == 0 then 0
    else
      EndingBetween(batches[..|batches| - 1], n, i, j) +
      if i < |batches[|batches| - 1]| % n <= j then 1 else 0
  }

  /** Since every batch starts over, the gap between two positions is exactly the number of
      batches that end between them, hence up to one for every batch. */
  lemma {:induction false} GapAcrossBatches(batches: seq<seq<int>>, backends: seq<Backend>, i: nat, j: nat)
    requires i < j < |backends| && Distinct(backends)
    requires forall k :: 0 <= k < |batches| ==> Distinct(batches[k])
    ensures LoadOfAll(batches, backends, i) - LoadOfAll(batches, backends, j)
         == EndingBetween(batches, |backends|, i, j) <= |batches|
  {
    if |batches| > 0 {
      var last, n := batches[|batches| - 1], |backends|;
      GapAcrossBatches(batches[..|batches| - 1], backends, i, j);
      LoadIsShare(last, backends, |last|, i);
      LoadIsShare(last, backends, |last|, j);
      ShareIs(|last|, n, i);
      ShareIs(|last|, n, j);
    }
  }

  /** The gap has no bound: batches of one socket all go to the first backend. */
  lemma {:induction false} SingleSocketBatches(batches: seq<seq<int>>, backends: seq<Backend>, j: nat)
    requires 0 < j < |backends| && Distinct(backends)
    requires forall k :: 0 <= k < |batches| ==> |batches[k]| == 1
    ensures LoadOfAll(batches, backends, 0) == |batches| && LoadOfAll(batches, backends, j) == 0
  {
    if |batches| > 0 {
      var last, n := batches[|batches| - 1], |backends|;
      SingleSocketBatches(batches[..|batches| - 1], backends, j);
      LoadIsShare(last, backends, 1, 0);
      LoadIsShare(last, backends, 1, j);
      ModUnique(1, n, 0, 1);
      ShareIs(1, n, 0);
      ShareIs(1, n, j);
    }
  }

  // ----- every batch is dispatched once, in order -----

  datatype Dispatch = Dispatch(sockes: seq<int>, backends: seq<Backend>, order: map<int, Backend>)

  datatype State = State(
    arrived: seq<seq<int>>,        // every batch handed to the balancer
    queue: seq<seq<int>>,          // sock_queue_
    inHand: seq<seq<int>>,         // the batch taken but not yet dispatched, if any
    dispatched: seq<Dispatch>)

  const IDLE := State([], [], [], [])

  /** Producers arrive at any time; the balancing thread takes, then dispatches. With no
      backend it could not serve a non-empty batch. */
  datatype Step = Arrive(sockes: seq<int>) | Take | Serve(backends: seq<Backend>)

  function Next(s: State, step: Step): State {
    match step
    case Arrive(sockes) => s.(arrived := s.arrived + [sockes], queue := s.queue + [sockes])
    case Take =>
      if s.queue == [] || s.inHand != [] then s
      else s.(queue := s.queue[1..], inHand := [s.queue[0]])
    case Serve(backends) =>
      if s.inHand == [] || (s.inHand[0] != [] && backends == []) then s
      else s.(inHand := s.inHand[1..],
              dispatched := s.dispatched +
                [Dispatch(s.inHand[0], backends, Balanced(s.inHand[0], backends))])
  }

  function Run(steps: seq<Step>): State {
    if |steps| == 0 then IDLE else Next(Run(steps[..|steps| - 1]), steps[|steps| - 1])
  }

  function Batches(ds: seq<Dispatch>): seq<seq<int>> {
    seq(|ds|, i requires 0 <= i < |ds| => ds[i].sockes)
  }

  /** In every interleaving, what has arrived is what was dispatched, then the batch in hand,
      then the queue: each batch goes out once, in arrival order. */
  lemma {:induction false} DispatchedOnceInOrder(steps: seq<Step>)
    ensures
      var s := Run(steps);
      && s.arrived == Batches(s.dispatched) + s.inHand + s.queue
      && |s.inHand| <= 1
  {
    if |steps| > 0 {
      var s := Run(steps[..|steps| - 1]);
      DispatchedOnceInOrder(steps[..|steps| - 1]);
      match steps[|steps| - 1]
      case Arrive(sockes) =>
      case Take =>
        if s.queue != [] && s.inHand == [] {
          assert s.queue == [s.queue[0]] + s.queue[1..];
        }
      case Serve(backends) =>
        if s.inHand != [] {
          assert s.inHand == [s.inHand[0]];
          assert Batches(Run(steps).dispatched) + Run(steps).inHand == Batches(s.dispatched) + s.inHand;
        }
    }
  }

  /** Every order sent out covers exactly its batch, with backends present at the time. */
  lemma {:induction false} OrdersTotal(steps: seq<Step>)
    ensures forall d :: d in Run(steps).dispatched ==>
      && d.order.Keys == (set k | 0 <= k < |d.sockes| :: d.sockes[k])
      && forall s :: s in d.order ==> d.order[s] in d.backends
  {
    if |steps| > 0 {
      OrdersTotal(steps[..|steps| - 1]);
      var s, step := Run(steps[..|steps| - 1]), steps[|steps| - 1];
      if step.Serve? && s.inHand != [] && (s.inHand[0] == [] || step.backends != []) {
        AssignedTotal(s.inHand[0], step.backends, |s.inHand[0]|);
      }
    }
  }

  /** The batches that the producers handed over, in order. */
  function Arrivals(steps: seq<Step>): seq<seq<int>> {
    if |steps| == 0 then []
    else
      var last := steps[|steps| - 1];
      Arrivals(steps[..|steps| - 1]) + if last.Arrive? then [last.sockes] else []
  }

  /** Nothing that was handed over is missing from what is accounted for. */
  lemma {:induction false} ArrivedAreArrivals(steps: seq<Step>)
    ensures
      var s := Run(steps);
      Batches(s.dispatched) + s.inHand + s.queue == s.arrived == Arrivals(steps)
  {
    DispatchedOnceInOrder(steps);
    if |steps| > 0 {
      ArrivedAreArrivals(steps[..|steps| - 1]);
    }
  }

  /** Whenever a batch waits and there is a backend, one round of the balancing thread sends out
      the oldest batch, assigned to these backends. */
  lemma RoundDispatches(steps: seq<Step>, backends: seq<Backend>)
    requires Run(steps).queue != [] && Run(steps).inHand == [] && backends != []
    ensures
      var s, s' := Run(steps), Run(steps + [Take] + [Serve(backends)]);
      && s'.queue == s.queue[1..] && s'.inHand == []
      && s'.dispatched == s.dispatched + [Dispatch(s.queue[0], backends, Balanced(s.queue[0], backends))]
  {
    assert (steps + [Take])[..|steps|] == steps;
    assert (steps + [Take] + [Serve(backends)])[..|steps| + 1] == steps + [Take];
  }

  // ----- the implementation -----

  class LoadBalancer {
    var arrived: seq<seq<int>>
    var sockQueue: seq<seq<int>>
    var inHand: seq<seq<int>>
    var dispatched: seq<Dispatch>

    ghost function View(): State
      reads this
    {
      State(arrived, sockQueue, inHand, dispatched)
    }

    constructor ()
      ensures View() == IDLE
    {
      arrived, sockQueue, inHand, dispatched := [], [], [], [];
    }

    method UpdateForLoadbalance(sockes: seq<int>)
      modifies this
      ensures View() == Next(old(View()), Arrive(sockes))
    {
      arrived := arrived + [sockes];
      sockQueue := sockQueue + [sockes];
    }

    /** The locked part of `loadbalance`, once the queue is not empty. */
    method TakeBatch()
      requires sockQueue != [] && inHand == []
      modifies this
      ensures View() == Next(old(View()), Take) && |inHand| == 1
    {
      inHand := [sockQueue[0]];
      sockQueue := sockQueue[1..];
    }

    /** Balances the batch in hand and notifies the proxy. */
    method ServeBatch(backends: seq<Backend>)
      requires |inHand| == 1 && (inHand[0] != [] ==> backends != [])
      modifies this
      ensures View() == Next(old(View()), Serve(backends)) && inHand == []
    {
      var order := Balancing(inHand[0], backends);
      dispatched := dispatched + [Dispatch(inHand[0], backends, order)];
      inHand := inHand[1..];
    }
  }
}
