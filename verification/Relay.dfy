/** A backend's answers on their way to its client (`forward` in src/proxy/proxy_server.cc) when
    several event loops watch the backend. Each loop reads into a packet of its own and then
    sends it, without a lock, so that loops can come in between a packet's read and its sends. */
module Relay {
  import opened Basics
  import opened Transfer

  /** A packet that a loop has read, and what is still to be sent of it. */
  datatype Held = Held(loop: int, left: seq<char>)

  datatype State = State(
    packets: seq<Held>,    // in the order of their reads
    read: seq<char>,       // everything read from the backend
    sent: seq<char>,       // everything sent to the client
    lost: nat)             // bytes dropped after an error

  const IDLE := State([], [], [], 0)

  /** A loop reads a packet, or the loop with packet `k` gets an answer from `send`. */
  datatype Step = Read(loop: int, data: seq<char>) | Send(k: nat, answer: int)

  predicate Unsent(ps: seq<Held>, k: nat) { k < |ps| && ps[k].left != [] }

  predicate Busy(s: State, loop: int) {
    exists k :: 0 <= k < |s.packets| && s.packets[k].loop == loop && Unsent(s.packets, k)
  }

  function Next(s: State, step: Step): State {
    match step
    case Read(loop, data) =>
      if Busy(s, loop) then s
      else s.(packets := s.packets + [Held(loop, Packet(data))], read := s.read + Packet(data))
    case Send(k, answer) =>
      if !Unsent(s.packets, k) then s
      else
        var h := s.packets[k];
        if answer < 0 then s.(packets := s.packets[k := h.(left := [])], lost := s.lost + |h.left|)
        else
          var n := Progress(answer, |h.left|);
          s.(packets := s.packets[k := h.(left := h.left[n..])], sent := s.sent + h.left[..n])
  }

  function RunFrom(s: State, steps: seq<Step>): State {
    if |steps| == 0 then s else Next(RunFrom(s, steps[..|steps| - 1]), steps[|steps| - 1])
  }

  function Run(steps: seq<Step>): State { RunFrom(IDLE, steps) }

  /** Nothing is in hand. */
  predicate Done(s: State) { forall k :: 0 <= k < |s.packets| ==> !Unsent(s.packets, k) }

  /** A `send` fails, and the rest of the packet with it. */
  predicate Cuts(s: State, step: Step) { step.Send? && Unsent(s.packets, step.k) && step.answer < 0 }

  /** A byte is sent while a packet read earlier is still in hand. */
  predicate Overtakes(s: State, step: Step) {
    && step.Send? && Unsent(s.packets, step.k) && step.answer >= 0
    && exists j :: 0 <= j < step.k && Unsent(s.packets, j)
  }

  predicate NeverSpoils(steps: seq<Step>) {
    |steps| > 0 ==>
      var front, last := steps[..|steps| - 1], steps[|steps| - 1];
      NeverSpoils(front) && !Cuts(Run(front), last) && !Overtakes(Run(front), last)
  }

  // ----- what is in hand -----

  /** What is still to be sent of the packets from the i-th on. */
  function LeftFrom(ps: seq<Held>, i: nat): seq<char>
    decreases |ps| - i
  {
    if i >= |ps| then [] else ps[i].left + LeftFrom(ps, i + 1)
  }

  lemma {:induction false} LeftAppend(ps: seq<Held>, h: Held, i: nat)
    requires i <= |ps|
    ensures LeftFrom(ps + [h], i) == LeftFrom(ps, i) + h.left
    decreases |ps| - i
  {
    if i < |ps| {
      LeftAppend(ps, h, i + 1);
    } else {
      assert LeftFrom(ps + [h], i + 1) == [];
    }
  }

  lemma {:induction false} LeftSame(ps: seq<Held>, qs: seq<Held>, i: nat)
    requires |ps| == |qs| && forall j :: i <= j < |ps| ==> ps[j] == qs[j]
    ensures LeftFrom(ps, i) == LeftFrom(qs, i)
    decreases |ps| - i
  {
    if i < |ps| {
      LeftSame(ps, qs, i + 1);
    }
  }

  /** Packets that are done take no part. */
  lemma {:induction false} LeftSkip(ps: seq<Held>, i: nat, k: nat)
    requires i <= k <= |ps| && forall j :: i <= j < k ==> !Unsent(ps, j)
    ensures LeftFrom(ps, i) == LeftFrom(ps, k)
    decreases k - i
  {
    if i < k {
      assert !Unsent(ps, i);
      LeftSkip(ps, i + 1, k);
    }
  }

  lemma {:induction false} LeftSize(ps: seq<Held>, i: nat, k: nat, h: Held)
    requires i <= k < |ps|
    ensures |LeftFrom(ps[k := h], i)| == |LeftFrom(ps, i)| - |ps[k].left| + |h.left|
    decreases k - i
  {
    if i < k {
      LeftSize(ps, i + 1, k, h);
    } else {
      LeftSame(ps, ps[k := h], k + 1);
    }
  }

  lemma {:induction false} LeftHas(ps: seq<Held>, i: nat, k: nat)
    requires i <= k < |ps| && ps[k].left != []
    ensures ps[k].left[0] in LeftFrom(ps, i)
    decreases k - i
  {
    if i < k {
      LeftHas(ps, i + 1, k);
    }
  }

  // ----- when the client gets what was read -----

  /** In every run each byte read is sent, in hand or lost. */
  lemma {:induction false} BytesCounted(steps: seq<Step>)
    ensures
      var s := Run(steps);
      |s.read| == |s.sent| + |LeftFrom(s.packets, 0)| + s.lost
  {
    if |steps| > 0 {
      var s, last := Run(steps[..|steps| - 1]), steps[|steps| - 1];
      BytesCounted(steps[..|steps| - 1]);
      match last
      case Read(loop, data) => LeftAppend(s.packets, Held(loop, Packet(data)), 0);
      case Send(k, _) =>
        if Unsent(s.packets, k) {
          LeftSize(s.packets, 0, k, Next(s, last).packets[k]);
        }
    }
  }

  /** What was sent, followed by what is in hand, is what was read. */
  ghost predicate InOrder(s: State) {
    s.read == s.sent + LeftFrom(s.packets, 0) && s.lost == 0
  }

  lemma StepInOrder(s: State, step: Step)
    requires InOrder(s) && !Cuts(s, step) && !Overtakes(s, step)
    ensures InOrder(Next(s, step))
  {
    match step
    case Read(loop, data) => LeftAppend(s.packets, Held(loop, Packet(data)), 0);
    case Send(k, _) =>
      if Unsent(s.packets, k) {
        var s' := Next(s, step);
        assert forall j :: 0 <= j < k ==> !Unsent(s.packets, j);
        forall j | 0 <= j < k ensures !Unsent(s'.packets, j) {
          assert !Unsent(s.packets, j);
        }
        LeftSkip(s.packets, 0, k);
        LeftSkip(s'.packets, 0, k);
        LeftSame(s.packets, s'.packets, k + 1);
      }
  }

  /** A byte has been sent before one that was read earlier. */
  ghost predicate Inverted(s: State) {
    exists p, i, j :: 0 <= p < |s.sent| && 0 <= i < j < |s.read| &&
      s.sent[p] == s.read[j] && s.read[i] !in s.sent[..p]
  }

  lemma StepInverted(s: State, step: Step)
    requires Inverted(s)
    ensures Inverted(Next(s, step))
  {
    var s' := Next(s, step);
    var p, i, j :| 0 <= p < |s.sent| && 0 <= i < j < |s.read| &&
      s.sent[p] == s.read[j] && s.read[i] !in s.sent[..p];
    assert s.sent <= s'.sent && s.read <= s'.read;
    assert s'.sent[..p] == s.sent[..p];
    assert s'.sent[p] == s'.read[j] && s'.read[i] !in s'.sent[..p];
  }

  lemma OvertakingInverts(s: State, step: Step)
    requires InOrder(s) && Distinct(s.read) && Overtakes(s, step)
    ensures Inverted(Next(s, step))
  {
    var first := FirstUnsent(s, step.k);
    LeftSkip(s.packets, 0, first);
    LeftHas(s.packets, first + 1, step.k);
    var s', y := Next(s, step), s.packets[step.k].left[0];
    var m :| 0 <= m < |LeftFrom(s.packets, first + 1)| && LeftFrom(s.packets, first + 1)[m] == y;
    var p := |s.sent|;
    var j := p + |s.packets[first].left| + m;
    assert s.read[j] == y == s'.sent[p];
    assert s'.sent[..p] == s.sent == s.read[..p];
    assert s'.read[p] !in s'.sent[..p];
  }

  lemma FirstUnsent(s: State, k: nat) returns (first: nat)
    requires exists j :: 0 <= j < k && Unsent(s.packets, j)
    ensures first < k && Unsent(s.packets, first) && forall j :: 0 <= j < first ==> !Unsent(s.packets, j)
  {
    first := 0;
    while !Unsent(s.packets, first)
      invariant first < k && forall j :: 0 <= j < first ==> !Unsent(s.packets, j)
      decreases k - first
    {
      first := first + 1;
    }
  }

  lemma {:induction false} RunStates(steps: seq<Step>)
    requires Distinct(Run(steps).read)
    ensures if NeverSpoils(steps) then InOrder(Run(steps)) else Run(steps).lost > 0 || Inverted(Run(steps))
  {
    if |steps| > 0 {
      var front, last := steps[..|steps| - 1], steps[|steps| - 1];
      var s := Run(front);
      assert s.read <= Run(steps).read;
      assert Distinct(s.read) by {
        assert forall i :: 0 <= i < |s.read| ==> s.read[i] == Run(steps).read[i];
      }
      RunStates(front);
      if NeverSpoils(steps) {
        StepInOrder(s, last);
      } else if NeverSpoils(front) && Overtakes(s, last) {
        OvertakingInverts(s, last);
      } else if !NeverSpoils(front) && s.lost == 0 {
        StepInverted(s, last);
      }
    }
  }

  /** For every interleaving of any number of loops, once nothing is in hand, and if the bytes can
      be told apart: the client has got exactly what was read from its backend, in order, if
      and only if no `send` failed on a packet and no packet overtook one read before it. */
  lemma DeliversInOrderIff(steps: seq<Step>)
    requires Done(Run(steps)) && Distinct(Run(steps).read)
    ensures Run(steps).sent == Run(steps).read <==> NeverSpoils(steps)
  {
    var s := Run(steps);
    RunStates(steps);
    BytesCounted(steps);
    assert forall k :: 0 <= k < |s.packets| ==> !Unsent(s.packets, k);
    LeftSkip(s.packets, 0, |s.packets|);
    assert s.sent == s.read ==> !Inverted(s);
  }

  // ----- one loop, and more than one -----

  predicate ByLoops(steps: seq<Step>, loops: set<int>) {
    forall i :: 0 <= i < |steps| && steps[i].Read? ==> steps[i].loop in loops
  }

  predicate NoErrors(steps: seq<Step>) {
    forall i :: 0 <= i < |steps| && steps[i].Send? ==> steps[i].answer >= 0
  }

  /** A run of these loops without errors that ends with nothing in hand. */
  predicate Clean(steps: seq<Step>, loops: set<int>) {
    ByLoops(steps, loops) && NoErrors(steps) && Done(Run(steps))
  }

  /** One loop reads its next packet only when it is through with the last. */
  lemma {:induction false} OneLoopInOrder(steps: seq<Step>, loop: int)
    requires ByLoops(steps, {loop}) && NoErrors(steps)
    ensures
      var s := Run(steps);
      && InOrder(s)
      && (forall k :: 0 <= k < |s.packets| ==> s.packets[k].loop == loop)
      && (forall k :: 0 <= k < |s.packets| - 1 ==> !Unsent(s.packets, k))
  {
    if |steps| > 0 {
      var front, last := steps[..|steps| - 1], steps[|steps| - 1];
      OneLoopInOrder(front, loop);
      StepInOrder(Run(front), last);
      assert last.Read? ==> last.loop == loop;
      var s, s' := Run(front), Run(steps);
      forall k | 0 <= k < |s'.packets| - 1 ensures !Unsent(s'.packets, k) {
        if last.Read? && s' != s {
          assert s'.packets[k] == s.packets[k] && s.packets[k].loop == loop;
          assert !Busy(s, loop);
        } else {
          assert !Unsent(s.packets, k);
        }
      }
    }
  }

  /** Two loops, each with a byte, can send them the wrong way round although no `send` fails. */
  lemma TwoLoopsReorder(a: int, b: int) returns (steps: seq<Step>)
    requires a != b
    ensures steps == [Read(a, "x"), Read(b, "y"), Send(1, 1), Send(0, 1)]
    ensures Done(Run(steps)) && Run(steps).read == "xy" && Run(steps).sent == "yx"
  {
    steps := [] + [Read(a, "x")] + [Read(b, "y")] + [Send(1, 1)] + [Send(0, 1)];
    hide RunFrom, Next;
    RunMore(IDLE, [], Read(a, "x"));
    RunMore(IDLE, [] + [Read(a, "x")], Read(b, "y"));
    RunMore(IDLE, [] + [Read(a, "x")] + [Read(b, "y")], Send(1, 1));
    RunMore(IDLE, [] + [Read(a, "x")] + [Read(b, "y")] + [Send(1, 1)], Send(0, 1));
    RunNone(IDLE);
    ReorderStates(a, b);
  }

  lemma ReorderStates(a: int, b: int)
    requires a != b
    ensures Next(Next(Next(Next(IDLE, Read(a, "x")), Read(b, "y")), Send(1, 1)), Send(0, 1))
      == State([Held(a, []), Held(b, [])], "xy", "yx", 0)
  {
    var one := Next(IDLE, Read(a, "x"));
    assert one == State([Held(a, "x")], "x", "", 0);
    var two := Next(one, Read(b, "y"));
    assert two == State([Held(a, "x"), Held(b, "y")], "xy", "", 0);
    var three := Next(two, Send(1, 1));
    assert Progress(1, 1) == 1 && Unsent(two.packets, 1) && "y"[1..] == [] && "x"[1..] == [];
    assert three == State([Held(a, "x"), Held(b, [])], "xy", "y", 0);
    assert Unsent(three.packets, 0) && "y" + "x" == "yx";
  }

  /** A set of loops delivers everything in order in all runs without errors iff it has no two
      members. */
  lemma LoopsInOrderIff(loops: set<int>)
    ensures
      (forall steps :: Clean(steps, loops) ==> Run(steps).sent == Run(steps).read)
      <==> (forall a, b :: a in loops && b in loops ==> a == b)
  {
    if a, b :| a in loops && b in loops && a != b {
      var steps := TwoLoopsReorder(a, b);
      assert Clean(steps, loops);
    } else {
      forall steps | Clean(steps, loops)
        ensures Run(steps).sent == Run(steps).read
      {
        var loop := if a :| a in loops then a else 0;
        OneLoopInOrder(steps, loop);
        LeftSkip(Run(steps).packets, 0, |Run(steps).packets|);
      }
    }
  }

  // ----- left alone, a loop does what `forward` does -----

  lemma RunMore(s: State, steps: seq<Step>, step: Step)
    ensures RunFrom(s, steps + [step]) == Next(RunFrom(s, steps), step)
  {
    assert (steps + [step])[..|steps|] == steps;
  }

  lemma RunNone(s: State)
    ensures RunFrom(s, []) == s
  {
  }

  lemma {:induction false} RunFirst(s: State, step: Step, steps: seq<Step>)
    ensures RunFrom(s, [step] + steps) == RunFrom(Next(s, step), steps)
    decreases |steps|
  {
    if |steps| == 0 {
      RunNone(s);
      RunMore(s, [], step);
      assert [step] + steps == [] + [step];
    } else {
      var front, last := steps[..|steps| - 1], steps[|steps| - 1];
      RunFirst(s, step, front);
      assert [step] + steps == ([step] + front) + [last];
      RunMore(s, [step] + front, last);
    }
  }

  function Sends(k: nat, answers: seq<int>): seq<Step> {
    seq(|answers|, i requires 0 <= i < |answers| => Send(k, answers[i]))
  }

  lemma {:induction false} SendsDeliver(s: State, k: nat, answers: seq<int>)
    requires k < |s.packets|
    ensures RunFrom(s, Sends(k, answers)).sent
      == s.sent + s.packets[k].left[..Moved(|s.packets[k].left|, answers)]
    decreases |answers|
  {
    hide RunFrom;
    if |answers| == 0 {
      RunNone(s);
      assert Sends(k, answers) == [];
    } else {
      var s', left := Next(s, Send(k, answers[0])), s.packets[k].left;
      assert Sends(k, answers) == [Send(k, answers[0])] + Sends(k, answers[1..]);
      RunFirst(s, Send(k, answers[0]), Sends(k, answers[1..]));
      SendsDeliver(s', k, answers[1..]);
      if answers[0] >= 0 && left != [] {
        var n := Progress(answers[0], |left|);
        var m := Moved(|left| - n, answers[1..]);
        assert left[..n] + left[n..][..m] == left[..n + m];
      }
    }
  }

  /** Left alone, a loop's read and sends deliver what one call of `forward` does. */
  lemma UndisturbedIsForward(s: State, loop: int, job: Job)
    requires !Busy(s, loop) && job.data.Some?
    ensures RunFrom(s, [Read(loop, job.data.value)] + Sends(|s.packets|, job.answers)).sent
      == s.sent + ForwardSent(job)
  {
    RunFirst(s, Read(loop, job.data.value), Sends(|s.packets|, job.answers));
    SendsDeliver(Next(s, Read(loop, job.data.value)), |s.packets|, job.answers);
  }
}
