/** The locked queue and the capacity of the lock-free one (src/network/queue.hpp).

    `pop` reads the front under the lock but removes it after the unlock. Container
    operations are atomic here, and the value is copied out before the removal. */
module Queue {
  import opened Basics

  // ----- producers and consumers -----

  datatype State<T> = State(
    queue: seq<T>,
    size: int,               // size_, before it wraps
    taking: map<int, T>,     // consumers that read the front and have not removed it yet
    pushed: seq<T>,          // every value pushed, in order
    popped: seq<T>)          // every value returned, in order

  /** `Take` and `Remove` are the two halves of `pop` as written; `Pop` has both of them under
      the lock. A consumer that finds the queue empty waits. */
  datatype Step<T> = Push(value: T) | Take(consumer: int) | Remove(consumer: int) | Pop(consumer: int)

  function Next<T>(s: State<T>, step: Step<T>): State<T> {
    match step
    case Push(v) =>
      s.(queue := s.queue + [v], size := s.size + 1, pushed := s.pushed + [v])
    case Take(c) =>
      if s.queue == [] || c in s.taking then s
      else s.(taking := s.taking[c := s.queue[0]], size := s.size - 1)
    case Remove(c) =>
      if c !in s.taking then s
      else s.(queue := if s.queue == [] then [] else s.queue[1..],
              taking := s.taking - {c}, popped := s.popped + [s.taking[c]])
    case Pop(c) =>
      if s.queue == [] || c in s.taking then s
      else s.(queue := s.queue[1..], size := s.size - 1, popped := s.popped + [s.queue[0]])
  }

  function Run<T>(steps: seq<Step<T>>): State<T> {
    if |steps| == 0 then State([], 0, map[], [], [])
    else Next(Run(steps[..|steps| - 1]), steps[|steps| - 1])
  }

  /** The values of the pushes, in order. */
  function Values<T>(steps: seq<Step<T>>): seq<T> {
    if |steps| == 0 then []
    else
      var last := steps[|steps| - 1];
      Values(steps[..|steps| - 1]) + if last.Push? then [last.value] else []
  }

  /** Whatever the interleaving, the history is that of the pushes. */
  lemma {:induction false} PushedAreValues<T>(steps: seq<Step<T>>)
    ensures Run(steps).pushed == Values(steps)
  {
    if |steps| > 0 {
      PushedAreValues(steps[..|steps| - 1]);
    }
  }

  /** In every reachable state, a consumer that is not at it and finds an element gets the front,
      in two halves as in one, and has returned it when it is through. */
  lemma PopReturnsFront<T>(steps: seq<Step<T>>, c: int)
    requires Run(steps).queue != [] && c !in Run(steps).taking
    ensures
      var s, half := Run(steps), Run(steps + [Take(c)]);
      && half.queue == s.queue && half.taking == s.taking[c := s.queue[0]] && half.popped == s.popped
      && Run(steps + [Take(c)] + [Remove(c)]).popped == s.popped + [s.queue[0]]
      && Run(steps + [Take(c)] + [Remove(c)]).taking == s.taking
      && Run(steps + [Take(c)] + [Remove(c)]).queue == s.queue[1..] == Run(steps + [Pop(c)]).queue
      && Run(steps + [Pop(c)]).popped == s.popped + [s.queue[0]]
  {
    RunMore(steps, Take(c));
    RunMore(steps + [Take(c)], Remove(c));
    RunMore(steps, Pop(c));
    assert Run(steps).taking[c := Run(steps).queue[0]] - {c} == Run(steps).taking;
  }

  /** First in, first out: nothing lost, returned twice or reordered. */
  ghost predicate Fifo<T>(s: State<T>) {
    s.pushed == s.popped + s.queue
  }

  /** What holds while at most one consumer is between its two halves. */
  ghost predicate Good<T>(s: State<T>) {
    && Fifo(s)
    && s.size == |s.queue| - |s.taking| >= 0
    && |s.taking| <= 1
    && forall c :: c in s.taking ==> s.queue != [] && s.taking[c] == s.queue[0]
  }

  /** A consumer gets the front while another has not removed it yet. */
  predicate Clashes<T>(s: State<T>, step: Step<T>) {
    (step.Take? || step.Pop?) && s.queue != [] && step.consumer !in s.taking && s.taking != map[]
  }

  predicate NeverClashes<T>(steps: seq<Step<T>>) {
    |steps| > 0 ==>
      var front, last := steps[..|steps| - 1], steps[|steps| - 1];
      NeverClashes(front) && !Clashes(Run(front), last)
  }

  lemma StepGood<T>(s: State<T>, step: Step<T>)
    requires Good(s) && !Clashes(s, step)
    ensures Good(Next(s, step))
  {
    match step
    case Push(v) =>
    case Take(c) => if c !in s.taking && s.queue != [] { TakeGood(s, c); }
    case Remove(c) => RemoveGood(s, c);
    case Pop(c) =>
      if s.queue != [] {
        assert s.queue == [s.queue[0]] + s.queue[1..];
      }
  }

  lemma TakeGood<T>(s: State<T>, c: int)
    requires Good(s) && s.taking == map[]
    ensures Good(Next(s, Take(c)))
  {
    if s.queue != [] {
      assert s.taking[c := s.queue[0]] == map[c := s.queue[0]];
    }
  }

  lemma RemoveGood<T>(s: State<T>, c: int)
    requires Good(s)
    ensures Good(Next(s, Remove(c)))
  {
    if c in s.taking {
      OnlyTaking(s, c);
      assert s.queue == [s.queue[0]] + s.queue[1..];
    }
  }

  /** The one consumer in between its two halves. */
  lemma OnlyTaking<T>(s: State<T>, c: int)
    requires Good(s) && c in s.taking
    ensures s.queue != [] && s.taking == map[c := s.queue[0]] && s.taking - {c} == map[]
  {
    assert |s.taking.Keys| == |s.taking|;
    OnlyMember(s.taking.Keys, c);
  }

  lemma OnlyMember(s: set<int>, c: int)
    requires c in s && |s| <= 1
    ensures s == {c}
  {
    assert |s - {c}| == |s| - 1;
  }

  /** In every interleaving of any number of threads without a clash, the queue is FIFO and
      `size_` counts the elements no consumer has claimed. */
  lemma {:induction false} GoodWithoutClash<T>(steps: seq<Step<T>>)
    requires NeverClashes(steps)
    ensures Good(Run(steps))
  {
    if |steps| > 0 {
      GoodWithoutClash(steps[..|steps| - 1]);
      StepGood(Run(steps[..|steps| - 1]), steps[|steps| - 1]);
    }
  }

  /** Some element has been handed out twice. */
  ghost predicate Twice<T(!new)>(s: State<T>) {
    || !Distinct(s.popped)
    || (exists c :: c in s.taking && s.taking[c] in s.popped)
    || (exists c, d :: c in s.taking && d in s.taking && c != d && s.taking[c] == s.taking[d])
  }

  /** Handed out twice is handed out twice for ever. */
  lemma StepTwice<T(!new)>(s: State<T>, step: Step<T>)
    requires Twice(s)
    ensures Twice(Next(s, step))
  {
    var s' := Next(s, step);
    assert s.popped <= s'.popped;
    if i, j :| 0 <= i < j < |s.popped| && s.popped[i] == s.popped[j] {
      assert s'.popped[i] == s'.popped[j];
    } else if c :| c in s.taking && s.taking[c] in s.popped {
      var i :| 0 <= i < |s.popped| && s.popped[i] == s.taking[c];
      assert s'.popped[i] == s.popped[i];
      if c !in s'.taking {
        assert s'.popped[i] == s'.popped[|s.popped|];
      }
    } else {
      var c, d :| c in s.taking && d in s.taking && c != d && s.taking[c] == s.taking[d];
      if c !in s'.taking || d !in s'.taking {
        assert s'.popped[|s.popped|] == s.taking[c];
        assert s'.taking[if c in s'.taking then c else d] in s'.popped;
      }
    }
  }

  lemma SomeKey<T>(m: map<int, T>)
    ensures m == map[] || exists c :: c in m
  {
    if forall c :: c !in m {
      assert m == map[];
    }
  }

  /** The clash itself hands out the front a second time. */
  lemma ClashTwice<T(!new)>(s: State<T>, step: Step<T>)
    requires Good(s) && Clashes(s, step)
    ensures Twice(Next(s, step))
  {
    var s' := Next(s, step);
    SomeKey(s.taking);
    var c :| c in s.taking;
    assert s'.taking[c] == s.queue[0];
    if step.Pop? {
      assert s'.popped[|s.popped|] == s.queue[0];
    } else {
      assert step.consumer in s'.taking && s'.taking[step.consumer] == s.queue[0];
    }
  }

  /** After a clash, whatever else happens, some element stays handed out twice. */
  lemma {:induction false} ClashedIsTwice<T(!new)>(steps: seq<Step<T>>)
    requires !NeverClashes(steps)
    ensures Twice(Run(steps))
  {
    var front, last := steps[..|steps| - 1], steps[|steps| - 1];
    if NeverClashes(front) {
      GoodWithoutClash(front);
      ClashTwice(Run(front), last);
    } else {
      ClashedIsTwice(front);
      StepTwice(Run(front), last);
    }
  }

  /** For every interleaving of any number of threads, with and without the removal under the
      lock, once every pop has returned: a queue of different elements was first in, first
      out exactly when no two consumers ever clashed. */
  lemma FifoIff<T(!new)>(steps: seq<Step<T>>)
    requires Run(steps).taking == map[] && Distinct(Run(steps).pushed)
    ensures Fifo(Run(steps)) <==> NeverClashes(steps)
  {
    if NeverClashes(steps) {
      GoodWithoutClash(steps);
    } else {
      ClashedIsTwice(steps);
      var s := Run(steps);
      var i, j :| 0 <= i < j < |s.popped| && s.popped[i] == s.popped[j];
      assert (s.popped + s.queue)[i] == (s.popped + s.queue)[j];
    }
  }

  /** In every run, clash or not, `size_` is what was pushed less what consumers have claimed. */
  lemma {:induction false} SizeCounts<T>(steps: seq<Step<T>>)
    ensures Run(steps).size == |Run(steps).pushed| - |Run(steps).popped| - |Run(steps).taking|
  {
    if |steps| > 0 {
      var s, last := Run(steps[..|steps| - 1]), steps[|steps| - 1];
      SizeCounts(steps[..|steps| - 1]);
      match last
      case Push(_) =>
      case Take(c) => if c !in s.taking && s.queue != [] { MapSizes(s.taking, c, s.queue[0]); }
      case Remove(c) => if c in s.taking { MapSizes(s.taking, c, s.taking[c]); }
      case Pop(_) =>
    }
  }

  /** One consumer and any number of producers never clash: the code is right for them. */
  lemma {:induction false} OneConsumerIsFifo<T>(steps: seq<Step<T>>, c: int)
    requires forall i :: 0 <= i < |steps| ==>
      steps[i].Push? || steps[i] == Take(c) || steps[i] == Remove(c)
    ensures NeverClashes(steps) && Good(Run(steps)) && Run(steps).taking.Keys <= {c}
  {
    if |steps| > 0 {
      OneConsumerIsFifo(steps[..|steps| - 1], c);
      StepGood(Run(steps[..|steps| - 1]), steps[|steps| - 1]);
    }
  }

  /** With the removal under the lock, any number of consumers is right. */
  lemma {:induction false} LockedRemovalIsFifo<T>(steps: seq<Step<T>>)
    requires forall i :: 0 <= i < |steps| ==> steps[i].Push? || steps[i].Pop?
    ensures NeverClashes(steps) && Good(Run(steps))
    ensures Run(steps).taking == map[] && Run(steps).size == |Run(steps).queue|
  {
    if |steps| > 0 {
      LockedRemovalIsFifo(steps[..|steps| - 1]);
      StepGood(Run(steps[..|steps| - 1]), steps[|steps| - 1]);
    }
  }

  /** The plainest clash: a second consumer takes before the first has removed, and both go
      on. The front is returned twice, the element behind it is lost, and with a single
      element `size_` goes below zero. */
  lemma OverlapDuplicates<T>(steps: seq<Step<T>>, c1: int, c2: int)
    requires NeverClashes(steps) && c1 != c2
    requires c1 in Run(steps).taking
    ensures
      var s, s' := Run(steps), Run(steps + [Take(c2)] + [Remove(c1)] + [Remove(c2)]);
      && s.queue != []
      && s'.popped == s.popped + [s.queue[0], s.queue[0]]
      && s'.queue == (if |s.queue| < 2 then [] else s.queue[2..])
      && s'.size == |s.queue| - 2
      && (|s.queue| < 2 || s.queue[0] != s.queue[1] ==> !Fifo(s'))
  {
    GoodWithoutClash(steps);
    RunMore(steps, Take(c2));
    RunMore(steps + [Take(c2)], Remove(c1));
    RunMore(steps + [Take(c2)] + [Remove(c1)], Remove(c2));
    OverlapStates(Run(steps), c1, c2);
  }

  lemma RunMore<T>(steps: seq<Step<T>>, step: Step<T>)
    ensures Run(steps + [step]) == Next(Run(steps), step)
  {
    assert (steps + [step])[..|steps|] == steps;
  }

  lemma OverlapStates<T>(s: State<T>, c1: int, c2: int)
    requires Good(s) && c1 in s.taking && c1 != c2
    ensures
      var s' := Next(Next(Next(s, Take(c2)), Remove(c1)), Remove(c2));
      && s.queue != []
      && s'.popped == s.popped + [s.queue[0], s.queue[0]]
      && s'.queue == (if |s.queue| < 2 then [] else s.queue[2..])
      && s'.size == |s.queue| - 2
      && (|s.queue| < 2 || s.queue[0] != s.queue[1] ==> !Fifo(s'))
  {
    OnlyTaking(s, c1);
    var a := Next(s, Take(c2));
    assert a == s.(taking := map[c1 := s.queue[0], c2 := s.queue[0]], size := s.size - 1);
    var b := Next(a, Remove(c1));
    assert a.taking - {c1} == map[c2 := s.queue[0]];
    var d := Next(b, Remove(c2));
    assert d.popped == s.popped + [s.queue[0], s.queue[0]];
    if |s.queue| >= 2 && Fifo(d) {
      var n := |s.popped|;
      assert d.pushed[n + 1] == s.queue[1];
      assert (d.popped + d.queue)[n + 1] == s.queue[0];
    }
  }

  // ----- the implementation of the locked queue -----

  class LockedQueue<T> {
    var queue: seq<T>
    var size: int
    ghost var taking: map<int, T>
    ghost var pushed: seq<T>
    ghost var popped: seq<T>

    ghost function View(): State<T>
      reads this
    {
      State(queue, size, taking, pushed, popped)
    }

    constructor ()
      ensures View() == Run([])
    {
      queue, size, taking, pushed, popped := [], 0, map[], [], [];
    }

    method Push(v: T)
      modifies this
      ensures View() == Next(old(View()), Step.Push(v))
    {
      queue, pushed := queue + [v], pushed + [v];
      size := size + 1;
    }

    /** The part of consumer `c`'s pop under the lock; `None` as long as the queue is empty,
        when it has to wait. */
    method TakeFront(c: int) returns (front: Option<T>)
      requires c !in taking
      modifies this`size, this`taking
      ensures View() == Next(old(View()), Take(c))
      ensures front == if queue == [] then None else Some(queue[0])
    {
      if queue == [] {
        return None;
      }
      front := Some(queue[0]);
      taking := taking[c := queue[0]];
      size := size - 1;
    }

    /** The removal, after the unlock; others may have been here in between. */
    method RemoveFront(c: int)
      requires c in taking
      modifies this`queue, this`taking, this`popped
      ensures View() == Next(old(View()), Remove(c))
    {
      queue := if queue == [] then [] else queue[1..];
      taking, popped := taking - {c}, popped + [taking[c]];
    }

    /** With nobody else in between, the value returned is the one removed. */
    method PopFront(c: int) returns (v: Option<T>)
      requires c !in taking
      modifies this
      ensures View() == Next(Next(old(View()), Take(c)), Remove(c))
      ensures if old(queue) == [] then v == None && View() == old(View())
        else v.Some? && [v.value] + queue == old(queue) && popped == old(popped) + [v.value]
    {
      v := TakeFront(c);
      if v.Some? {
        RemoveFront(c);
      }
    }
  }

  // ----- capacities -----

  function Pow2(k: nat): (p: nat)
    ensures p >= 1
  {
    if k == 0 then 1 else 2 * Pow2(k - 1)
  }

  /** Bitwise AND of two naturals. */
  function And(a: nat, b: nat): nat {
    if a == 0 || b == 0 then 0 else (a % 2) * (b % 2) + 2 * And(a / 2, b / 2)
  }

  predicate IsPowerOfTwo(size: nat) { size > 0 && And(size, size - 1) == 0 }

  lemma {:induction false} AndSelf(n: nat)
    ensures And(n, n) == n
  {
    if n > 0 {
      AndSelf(n / 2);
      assert (n % 2) * (n % 2) == n % 2;
    }
  }

  lemma BitTestHalves(n: nat)
    requires n > 1
    ensures IsPowerOfTwo(n) <==> n % 2 == 0 && IsPowerOfTwo(n / 2)
  {
    AndSelf(n / 2);
    if n % 2 == 0 {
      assert (n - 1) / 2 == n / 2 - 1;
    } else {
      assert (n - 1) / 2 == n / 2;
    }
  }

  lemma {:induction false} PowersPass(k: nat)
    ensures IsPowerOfTwo(Pow2(k))
  {
    if k > 0 {
      PowersPass(k - 1);
      BitTestHalves(Pow2(k));
    }
  }

  lemma {:induction false} Exponent(n: nat) returns (k: nat)
    requires IsPowerOfTwo(n)
    ensures n == Pow2(k)
  {
    if n == 1 {
      k := 0;
    } else {
      BitTestHalves(n);
      k := Exponent(n / 2);
      k := k + 1;
    }
  }

  /** The bit trick accepts exactly the powers of two. */
  lemma BitTestIff(n: nat)
    ensures IsPowerOfTwo(n) <==> exists k: nat :: n == Pow2(k)
  {
    if IsPowerOfTwo(n) {
      var _ := Exponent(n);
    }
    if k: nat :| n == Pow2(k) {
      PowersPass(k);
    }
  }

  lemma {:induction false} Pow2Monotone(i: nat, j: nat)
    requires i <= j
    ensures Pow2(i) <= Pow2(j) && (i < j ==> 2 * Pow2(i) <= Pow2(j))
    decreases j
  {
    if i < j {
      Pow2Monotone(i, j - 1);
    }
  }

  /** `power <<= 1` in 64 bits. */
  function Double(power: nat): (p: nat)
    ensures 2 * power < LIMIT_64 ==> p == 2 * power
    ensures power == 0x8000_0000_0000_0000 || power == 0 ==> p == 0
  {
    2 * power % LIMIT_64
  }

  /** The rounding variable after `i` doublings in 64 bits. */
  function PowerAfter(i: nat): nat {
    if i == 0 then 1 else Double(PowerAfter(i - 1))
  }

  lemma {:induction false} PowerAfterIs(i: nat)
    ensures PowerAfter(i) == if i < 64 then Pow2(i) else 0
  {
    TopPower();
    if i > 0 {
      PowerAfterIs(i - 1);
      if i < 64 {
        Pow2Monotone(i, 63);
      } else if i > 64 {
        assert PowerAfter(i - 1) == 0;
      }
    }
  }

  lemma {:induction false} Pow2Add(a: nat, b: nat)
    ensures Pow2(a + b) == Pow2(a) * Pow2(b)
  {
    if a > 0 {
      Pow2Add(a - 1, b);
      assert 2 * (Pow2(a - 1) * Pow2(b)) == (2 * Pow2(a - 1)) * Pow2(b);
    }
  }

  lemma TopPower()
    ensures Pow2(63) == 0x8000_0000_0000_0000 && Pow2(64) == LIMIT_64
  {
    Pow32();
    Pow2Add(32, 32);
    Pow2Add(1, 63);
  }

  lemma Pow32()
    ensures Pow2(32) == 0x1_0000_0000
  {
    assert Pow2(4) == 16;
    Pow2Add(4, 4);
    Pow2Add(8, 8);
    Pow2Add(16, 16);
  }

  /** The rounding loop ends exactly for requests up to 2^63; beyond, the doubled value wraps
      to 0 and stays below the request for ever. */
  lemma RoundingEndsIff(size: nat)
    requires size < LIMIT_64
    ensures (exists i: nat :: PowerAfter(i) >= size) <==> size <= 0x8000_0000_0000_0000
  {
    TopPower();
    if size <= 0x8000_0000_0000_0000 {
      PowerAfterIs(63);
      assert PowerAfter(63) >= size;
    } else {
      forall i: nat ensures PowerAfter(i) < size {
        PowerAfterIs(i);
        if i < 64 {
          Pow2Monotone(i, 63);
        }
      }
    }
  }

  /** The least power of two not below the request. */
  ghost predicate IsLeastPower(power: nat, size: nat) {
    && (exists k: nat :: power == Pow2(k))
    && power >= size
    && forall k: nat :: Pow2(k) >= size ==> Pow2(k) >= power
  }

  /** Requests above 2^63 do not return; see RoundingEndsIff. */
  method RoundUpToPowerOfTwo(size: nat) returns (power: nat)
    requires size <= 0x8000_0000_0000_0000
    ensures IsLeastPower(power, size)
    ensures size > 0 ==> power < 2 * size
  {
    power := 1;
    ghost var k := 0;
    TopPower();
    assert power == Pow2(0);
    while power < size
      invariant k < 64 && power == Pow2(k)
      invariant size > 0 ==> power < 2 * size
      invariant forall j :: 0 <= j < k ==> Pow2(j) < size
      decreases 2 * size - power
    {
      assert k < 63;
      Pow2Monotone(k + 1, 63);
      power := Double(power);
      k := k + 1;
    }
    forall j: nat | Pow2(j) >= size ensures Pow2(j) >= power {
      Pow2Monotone(k, if j < k then k else j);
    }
  }

  class LockFreeQueue {
    var capacity: nat

    /** The stored capacity is the request rounded up to a power of two. */
    constructor (requested: nat)
      requires requested <= 0x8000_0000_0000_0000
      ensures IsLeastPower(capacity, requested)
      ensures requested > 0 ==> capacity < 2 * requested
    {
      BitTestIff(requested);
      if IsPowerOfTwo(requested) {
        capacity := requested;
      } else {
        var power := RoundUpToPowerOfTwo(requested);
        capacity := power;
      }
    }
  }
}
