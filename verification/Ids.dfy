/** The id counters of the pub/sub centre (src/pubsub/pub_sub.hpp): a 16-bit counter from which
    any number of threads draw with a load followed by a `fetch_add`. */
module Ids {
  import opened Basics

  const ID_LIMIT: nat := 0x1_0000

  datatype State = State(
    counter: nat,
    adds: nat,               // fetch_adds so far, by all threads
    loaded: map<int, nat>,   // what each thread in its loop has loaded
    since: map<int, nat>,    // and how many fetch_adds there had been by then
    ids: seq<nat>)           // the ids returned, in order

  const START := State(0, 0, map[], map[], [])

  datatype Step = Load(thread: int) | FetchAdd(thread: int)

  /** A thread whose `fetch_add` sees what it loaded returns that id; any other tries again. */
  function Next(s: State, step: Step): State {
    match step
    case Load(t) =>
      s.(loaded := s.loaded[t := s.counter], since := s.since[t := s.adds])
    case FetchAdd(t) =>
      if t !in s.loaded then s
      else State((s.counter + 1) % ID_LIMIT, s.adds + 1, s.loaded - {t}, s.since - {t},
                 if s.loaded[t] == s.counter then s.ids + [s.counter] else s.ids)
  }

  function RunFrom(s: State, steps: seq<Step>): State {
    if |steps| == 0 then s else Next(RunFrom(s, steps[..|steps| - 1]), steps[|steps| - 1])
  }

  function Run(steps: seq<Step>): State { RunFrom(START, steps) }

  ghost predicate Increasing(ids: seq<nat>, bound: nat) {
    && (forall i, j :: 0 <= i < j < |ids| ==> ids[i] < ids[j])
    && (forall i :: 0 <= i < |ids| ==> ids[i] < bound)
  }

  /** In every interleaving with at most 65536 `fetch_add`s the ids are pairwise distinct,
      and even handed out in increasing order, although failed attempts consume ids. */
  lemma {:induction false} IdsDistinct(steps: seq<Step>)
    requires Run(steps).adds <= ID_LIMIT
    ensures Increasing(Run(steps).ids, Run(steps).adds) && Distinct(Run(steps).ids)
    ensures Run(steps).counter == Run(steps).adds % ID_LIMIT
  {
    if |steps| > 0 {
      IdsDistinct(steps[..|steps| - 1]);
    }
  }

  /** In every reachable state the registers agree with the number of `fetch_add`s. */
  lemma {:induction false} Registers(steps: seq<Step>)
    ensures
      var s := Run(steps);
      && s.counter == s.adds % ID_LIMIT
      && s.loaded.Keys == s.since.Keys
      && forall t :: t in s.loaded ==> s.since[t] <= s.adds && s.loaded[t] == s.since[t] % ID_LIMIT
  {
    if |steps| > 0 {
      Registers(steps[..|steps| - 1]);
      AddWraps(Run(steps[..|steps| - 1]).adds);
    }
  }

  lemma AddWraps(n: nat)
    ensures (n % ID_LIMIT + 1) % ID_LIMIT == (n + 1) % ID_LIMIT
  {
  }

  /** An attempt succeeds exactly when, since its load, the other threads have added a multiple
      of 65536 times: not at all, or once around the counter. */
  lemma AttemptSucceedsIff(steps: seq<Step>, t: int)
    requires t in Run(steps).loaded
    ensures t in Run(steps).since && Run(steps).since[t] <= Run(steps).adds
    ensures |Next(Run(steps), FetchAdd(t)).ids| == |Run(steps).ids| + 1 <==>
      (Run(steps).adds - Run(steps).since[t]) % ID_LIMIT == 0
  {
    Registers(steps);
    SameResidueIff(Run(steps).adds, Run(steps).since[t]);
  }

  lemma SameResidueIff(a: nat, b: nat)
    requires b <= a
    ensures a % ID_LIMIT == b % ID_LIMIT <==> (a - b) % ID_LIMIT == 0
  {
    var qa, qb := a / ID_LIMIT, b / ID_LIMIT;
    if a % ID_LIMIT == b % ID_LIMIT {
      assert a - b == ID_LIMIT * (qa - qb);
    }
    if (a - b) % ID_LIMIT == 0 {
      assert a == b + ID_LIMIT * ((a - b) / ID_LIMIT);
    }
  }

  /** `n` undisturbed calls by one thread. */
  function Calls(n: nat): seq<Step> {
    if n == 0 then [] else Calls(n - 1) + [Load(0)] + [FetchAdd(0)]
  }

  lemma RunMore(s: State, steps: seq<Step>, step: Step)
    ensures RunFrom(s, steps + [step]) == Next(RunFrom(s, steps), step)
  {
    assert (steps + [step])[..|steps|] == steps;
  }

  /** An undisturbed call returns the counter and advances it. */
  lemma OneCall(s: State)
    requires s.loaded == map[]
    ensures
      var after := Next(Next(s, Load(0)), FetchAdd(0));
      && after.adds == s.adds + 1 && after.loaded == map[]
      && after.counter == (s.counter + 1) % ID_LIMIT && after.ids == s.ids + [s.counter]
  {
    var half := Next(s, Load(0));
    assert half.loaded == map[0 := s.counter];
    assert half.loaded - {0} == map[];
  }

  lemma {:induction false} CallsGive(n: nat)
    ensures
      var s := Run(Calls(n));
      && s.adds == n && s.counter == n % ID_LIMIT && s.loaded == map[] && |s.ids| == n
      && forall i :: 0 <= i < n ==> s.ids[i] == i % ID_LIMIT
  {
    if n > 0 {
      CallsGive(n - 1);
      var before := Calls(n - 1);
      RunMore(START, before, Load(0));
      RunMore(START, before + [Load(0)], FetchAdd(0));
      OneCall(Run(before));
      AddWraps(n - 1);
      GivesMore(Run(before).ids, Run(Calls(n)).ids, n - 1);
    }
  }

  lemma GivesMore(before: seq<nat>, after: seq<nat>, n: nat)
    requires |before| == n && after == before + [n % ID_LIMIT]
    requires forall i :: 0 <= i < n ==> before[i] == i % ID_LIMIT
    ensures |after| == n + 1 && forall i :: 0 <= i < n + 1 ==> after[i] == i % ID_LIMIT
  {
  }

  /** The bound is exact: the ids of every interleaving with `n` `fetch_add`s are distinct if
      and only if `n` <= 65536. One thread alone, calling undisturbed, repeats an id after that. */
  lemma AlwaysDistinctIff(n: nat)
    ensures (forall steps :: Run(steps).adds == n ==> Distinct(Run(steps).ids)) <==> n <= ID_LIMIT
  {
    if n <= ID_LIMIT {
      forall steps | Run(steps).adds == n ensures Distinct(Run(steps).ids) {
        IdsDistinct(steps);
      }
    } else {
      CallsGive(n);
      assert Run(Calls(n)).ids[0] == Run(Calls(n)).ids[ID_LIMIT];
    }
  }

  // ----- the implementation -----

  predicate Without(steps: seq<Step>, t: int) {
    forall i :: 0 <= i < |steps| ==> steps[i].thread != t
  }

  /** What happens up to the `fetch_add` of attempt `k` of thread `t`: between the load and the
      `fetch_add` of its i-th attempt the others take the steps `others[i]`, and after the
      list they are quiet. */
  function Schedule(t: int, others: seq<seq<Step>>, k: nat): seq<Step> {
    (if k == 0 then [] else Schedule(t, others, k - 1) + [FetchAdd(t)]) + [Load(t)] +
      if k < |others| then others[k] else []
  }

  /** Does that `fetch_add` see what the attempt has loaded? */
  predicate Succeeds(s: State, t: int, others: seq<seq<Step>>, k: nat) {
    var m := RunFrom(s, Schedule(t, others, k));
    t in m.loaded && m.loaded[t] == m.counter
  }

  /** One counter, and what each thread in its loop has loaded. */
  class IdCounter {
    var counter: nat
    ghost var adds: nat
    var loaded: map<int, nat>
    ghost var since: map<int, nat>
    ghost var ids: seq<nat>

    ghost function View(): State
      reads this
    {
      State(counter, adds, loaded, since, ids)
    }

    constructor ()
      ensures View() == START
    {
      counter, adds, loaded, since, ids := 0, 0, map[], map[], [];
    }

    method LoadCounter(t: int) returns (id: nat)
      modifies this
      ensures View() == Next(old(View()), Load(t)) && t in loaded && id == counter == loaded[t]
    {
      id := counter;
      loaded, since := loaded[t := counter], since[t := adds];
    }

    /** The loop's test: the thread returns the id if it is still the counter. */
    method AddAndTest(t: int) returns (was: nat)
      requires t in loaded
      modifies this
      ensures View() == Next(old(View()), FetchAdd(t)) && was == old(counter)
      ensures ids == if old(loaded[t]) == was then old(ids) + [was] else old(ids)
    {
      was := counter;
      ids := if loaded[t] == was then ids + [was] else ids;
      counter, adds := (counter + 1) % ID_LIMIT, adds + 1;
      loaded, since := loaded - {t}, since - {t};
    }

    /** Other threads run; what `t` has loaded stays. */
    method Interfere(steps: seq<Step>, t: int)
      requires Without(steps, t)
      modifies this
      ensures View() == RunFrom(old(View()), steps)
      ensures t in old(loaded) ==> t in loaded && loaded[t] == old(loaded[t])
      ensures |steps| == 0 ==> counter == old(counter)
    {
      for i := 0 to |steps|
        invariant View() == RunFrom(old(View()), steps[..i])
        invariant t in old(loaded) ==> t in loaded && loaded[t] == old(loaded[t])
        invariant i == 0 ==> counter == old(counter)
      {
        assert steps[..i + 1][..i] == steps[..i];
        match steps[i]
        case Load(u) =>
          var _ := LoadCounter(u);
        case FetchAdd(u) =>
          if u in loaded {
            var _ := AddAndTest(u);
          }
      }
      assert steps[..|steps|] == steps;
    }

    /** A call of thread `t`: it ends with its first successful attempt, `k`, everything the
        other threads did has happened, and the id is the one the last `fetch_add` consumed. */
    method NewId(t: int, others: seq<seq<Step>>) returns (id: nat, k: nat)
      requires forall i :: 0 <= i < |others| ==> Without(others[i], t)
      modifies this
      ensures k <= |others| && Succeeds(old(View()), t, others, k)
      ensures forall j :: 0 <= j < k ==> !Succeeds(old(View()), t, others, j)
      ensures View() == Next(RunFrom(old(View()), Schedule(t, others, k)), FetchAdd(t))
      ensures ids == RunFrom(old(View()), Schedule(t, others, k)).ids + [id]
    {
      hide Next, RunFrom;
      RunNone(View());
      k := 0;
      ghost var trace := [];
      while true
        invariant k <= |others|
        invariant trace == if k == 0 then [] else Schedule(t, others, k - 1) + [FetchAdd(t)]
        invariant View() == RunFrom(old(View()), trace)
        invariant forall j :: 0 <= j < k ==> !Succeeds(old(View()), t, others, j)
        decreases |others| - k
      {
        RunMore(old(View()), trace, Load(t));
        id := LoadCounter(t);
        var between := if k < |others| then others[k] else [];
        RunOn(old(View()), trace + [Load(t)], between);
        Interfere(between, t);
        assert trace + [Load(t)] + between == Schedule(t, others, k);
        var was := AddAndTest(t);
        if id == was {
          return;
        }
        RunMore(old(View()), Schedule(t, others, k), FetchAdd(t));
        trace := Schedule(t, others, k) + [FetchAdd(t)];
        k := k + 1;
      }
    }
  }

  lemma RunNone(s: State)
    ensures RunFrom(s, []) == s
  {
  }

  lemma {:induction false} RunOn(s: State, steps: seq<Step>, more: seq<Step>)
    ensures RunFrom(s, steps + more) == RunFrom(RunFrom(s, steps), more)
    decreases |more|
  {
    if |more| == 0 {
      assert steps + more == steps;
    } else {
      RunOn(s, steps, more[..|more| - 1]);
      assert steps + more == (steps + more[..|more| - 1]) + [more[|more| - 1]];
      RunMore(s, steps + more[..|more| - 1], more[|more| - 1]);
    }
  }
}
