/** The two byte movers of the proxy (src/proxy/proxy_server.cc): `forward`, through a packet
    buffer, and `zeroCopy`, through one pipe that every call shares. */
module Transfer {
  import opened Basics

  const MAX_PACKET_SIZE := 0x1_0000

  // ----- the sending loop both movers share -----

  /** What one call moves when `left` bytes are offered: at least one, at most all. */
  function Progress(answer: int, left: nat): (n: nat)
    ensures n <= left && (left > 0 ==> n > 0)
    ensures 1 <= answer <= left ==> n == answer
  {
    if answer > left then left else if answer > 0 then answer else if left > 0 then 1 else 0
  }

  /** How many of `left` bytes get out when the kernel answers `answers` in turn; a negative
      answer is an error, and so is the end of the list. */
  function Moved(left: nat, answers: seq<int>): (n: nat)
    ensures n <= left
    decreases |answers|
  {
    if |answers| == 0 || answers[0] < 0 then 0
    else
      var n := Progress(answers[0], left);
      if n == left then n else n + Moved(left - n, answers[1..])
  }

  /** Only an error leaves something behind. */
  lemma {:induction false} MovedAllWithoutError(left: nat, answers: seq<int>)
    requires |answers| >= left && forall i :: 0 <= i < |answers| ==> answers[i] >= 0
    ensures Moved(left, answers) == left
    decreases |answers|
  {
    if left > 0 {
      var n := Progress(answers[0], left);
      if n < left {
        MovedAllWithoutError(left - n, answers[1..]);
      }
    }
  }

  function SumOf(answers: seq<int>): int {
    if |answers| == 0 then 0 else answers[0] + SumOf(answers[1..])
  }

  /** What gets out is the sum of the answers, up to an error or until everything is out. */
  lemma {:induction false} MovedIsSum(left: nat, good: seq<int>, rest: seq<int>)
    requires (forall i :: 0 <= i < |good| ==> good[i] >= 1) && SumOf(good) <= left
    requires SumOf(good) == left || rest == [] || rest[0] < 0
    ensures Moved(left, good + rest) == SumOf(good)
    decreases |good|
  {
    if |good| == 0 {
      assert good + rest == rest;
    } else {
      var later := good[1..];
      SumNotNegative(later);
      assert (good + rest)[1..] == later + rest && (good + rest)[0] == good[0];
      assert forall i :: 0 <= i < |later| ==> later[i] == good[i + 1];
      MovedIsSum(left - good[0], later, rest);
    }
  }

  lemma {:induction false} SumNotNegative(answers: seq<int>)
    requires forall i :: 0 <= i < |answers| ==> answers[i] >= 1
    ensures SumOf(answers) >= |answers|
    decreases |answers|
  {
    if |answers| > 0 {
      SumNotNegative(answers[1..]);
    }
  }

  /** Some answer is an error, or missing, while bytes are still to be sent. */
  ghost predicate Fails(left: nat, answers: seq<int>) {
    exists k :: 0 <= k <= |answers| && FailsAt(left, answers, k)
  }

  predicate FailsAt(left: nat, answers: seq<int>, k: nat)
    requires k <= |answers|
  {
    (k == |answers| || answers[k] < 0) && Moved(left, answers[..k]) < left
  }

  /** The loop leaves something behind exactly when it runs into an error. */
  lemma {:induction false} MovedAllIff(left: nat, answers: seq<int>)
    ensures Moved(left, answers) < left <==> Fails(left, answers)
    decreases |answers|
  {
    if |answers| == 0 || answers[0] < 0 {
      assert answers[..0] == [];
      assert FailsAt(left, answers, 0) <==> left > 0;
      if k :| 0 <= k <= |answers| && FailsAt(left, answers, k) {
        assert left > 0;
      }
    } else {
      var later, rest := left - Progress(answers[0], left), answers[1..];
      MovedAllIff(later, rest);
      if k :| 0 <= k <= |answers| && FailsAt(left, answers, k) {
        FailsLater(left, answers, k);
      }
      if k :| 0 <= k <= |rest| && FailsAt(later, rest, k) {
        FailsLater(left, answers, k + 1);
      }
    }
  }

  /** A failure after the first answer is one of the rest of the bytes with the rest of the answers. */
  lemma FailsLater(left: nat, answers: seq<int>, k: nat)
    requires k <= |answers| && |answers| > 0 && answers[0] >= 0
    ensures FailsAt(left, answers, k) ==> k > 0 || left > 0
    ensures k > 0 ==>
      (FailsAt(left, answers, k) <==> FailsAt(left - Progress(answers[0], left), answers[1..], k - 1))
  {
    if k > 0 {
      assert answers[..k][1..] == answers[1..][..k - 1];
    }
  }

  // ----- forward -----

  /** What one `read` into the packet can return. */
  function Packet(data: seq<char>): seq<char> {
    if |data| <= MAX_PACKET_SIZE then data else data[..MAX_PACKET_SIZE]
  }

  /** One call: what the source has ready, `None` when it would block, and the answers of `send`. */
  datatype Job = Job(data: Option<seq<char>>, answers: seq<int>)
  {
    /** The packet read. */
    function Read(): seq<char> { if data.None? then [] else Packet(data.value) }

    /** A `send` failed while bytes of the packet were still to be sent. */
    ghost predicate Cut() { Fails(|Read()|, answers) }
  }

  function ForwardTotal(job: Job): int {
    if job.data.None? then -1 else Moved(|job.Read()|, job.answers)
  }

  function ForwardSent(job: Job): (sent: seq<char>)
    ensures |sent| <= MAX_PACKET_SIZE
    ensures |sent| == if job.data.None? then 0 else ForwardTotal(job)
  {
    job.Read()[..Moved(|job.Read()|, job.answers)]
  }

  /** The bytes sent are a prefix of the packet, and the result is their number. */
  method Forward(job: Job) returns (total: int, sent: seq<char>)
    ensures total == ForwardTotal(job)
    ensures sent == ForwardSent(job)
  {
    if job.data.None? {
      return -1, [];
    }
    var segment := Packet(job.data.value);
    var left := job.answers;
    total, sent := 0, [];
    while true
      invariant 0 <= total <= |segment| && sent == segment[..total]
      invariant total + Moved(|segment| - total, left) == Moved(|segment|, job.answers)
      decreases |left|
    {
      if |left| == 0 || left[0] < 0 {
        break;
      }
      var n := Progress(left[0], |segment| - total);
      sent := sent + segment[total..total + n];
      total := total + n;
      left := left[1..];
      if total == |segment| {
        break;
      }
    }
  }

  /** One call, in terms of what its source has ready: it sends and counts a prefix of that, and
      all of it, or a full packet, exactly when no `send` fails before. */
  lemma ForwardOutcome(job: Job)
    ensures job.data.None? ==> ForwardTotal(job) == -1 && ForwardSent(job) == []
    ensures job.data.Some? ==>
      var d, k := job.data.value, ForwardTotal(job);
      var most := if |d| <= 65536 then |d| else 65536;
      && 0 <= k <= most && ForwardSent(job) == d[..k]
      && (k == most <==> !Fails(most, job.answers))
  {
    if job.data.Some? {
      MovedAllIff(|job.Read()|, job.answers);
    }
  }

  /** All that the sources of a run of calls had ready. */
  function DataAll(jobs: seq<Job>): seq<char> {
    if |jobs| == 0 then []
    else
      DataAll(jobs[..|jobs| - 1]) +
      if jobs[|jobs| - 1].data.None? then [] else jobs[|jobs| - 1].data.value
  }

  predicate FitsPacket(job: Job) { job.data.Some? ==> |job.data.value| <= 65536 }

  lemma {:induction false} ReadsAreData(jobs: seq<Job>)
    requires forall i :: 0 <= i < |jobs| ==> FitsPacket(jobs[i])
    ensures ReadAll(jobs) == DataAll(jobs)
  {
    if |jobs| > 0 {
      ReadsAreData(jobs[..|jobs| - 1]);
      assert FitsPacket(jobs[|jobs| - 1]);
    }
  }

  /** Over every run of calls whose sources have at most a packet ready each: everything they
      had has been sent, in order, if and only if no `send` failed while some of it was left. */
  lemma ForwardsDeliverDataIff(jobs: seq<Job>)
    requires forall i :: 0 <= i < |jobs| ==> FitsPacket(jobs[i])
    ensures SentAll(jobs) == DataAll(jobs) <==>
      forall i :: 0 <= i < |jobs| && jobs[i].data.Some? ==> !Fails(|jobs[i].data.value|, jobs[i].answers)
  {
    ReadsAreData(jobs);
    ForwardsDeliverIff(jobs);
    forall i | 0 <= i < |jobs|
      ensures !jobs[i].Cut() <==> (jobs[i].data.Some? ==> !Fails(|jobs[i].data.value|, jobs[i].answers))
    {
      assert FitsPacket(jobs[i]);
      MovedAllIff(|jobs[i].Read()|, jobs[i].answers);
    }
  }

  /** All packets read by a run of calls. */
  function ReadAll(jobs: seq<Job>): seq<char> {
    if |jobs| == 0 then [] else ReadAll(jobs[..|jobs| - 1]) + jobs[|jobs| - 1].Read()
  }

  /** All bytes sent by it. */
  function SentAll(jobs: seq<Job>): seq<char> {
    if |jobs| == 0 then [] else SentAll(jobs[..|jobs| - 1]) + ForwardSent(jobs[|jobs| - 1])
  }

  /** Over every run of calls, what was read has all been sent, in order, if and only if no call
      was cut: what is left of a packet is never sent later. */
  lemma ForwardsDeliverIff(jobs: seq<Job>)
    ensures SentAll(jobs) == ReadAll(jobs) <==> forall i :: 0 <= i < |jobs| ==> !jobs[i].Cut()
  {
    ForwardsDeliver(jobs);
  }

  lemma {:induction false} ForwardsDeliver(jobs: seq<Job>)
    ensures |SentAll(jobs)| <= |ReadAll(jobs)|
    ensures |SentAll(jobs)| == |ReadAll(jobs)| ==> forall i :: 0 <= i < |jobs| ==> !jobs[i].Cut()
    ensures (forall i :: 0 <= i < |jobs| ==> !jobs[i].Cut()) ==> SentAll(jobs) == ReadAll(jobs)
  {
    if |jobs| > 0 {
      var front, last := jobs[..|jobs| - 1], jobs[|jobs| - 1];
      ForwardsDeliver(front);
      MovedAllIff(|last.Read()|, last.answers);
      assert forall i :: 0 <= i < |front| ==> front[i] == jobs[i];
    }
  }

  // ----- zeroCopy -----

  /** One call: what the source splices in (`None` on error), and the output's answers. */
  datatype Copy = Copy(dst: int, data: Option<seq<char>>, answers: seq<int>)
  {
    function Input(): seq<char> { if data.None? then [] else data.value }

    function Total(): (n: nat)
      ensures n <= |Input()|
    {
      Moved(|Input()|, answers)
    }

    /** No output splice failed while bytes spliced in were still to come out. */
    ghost predicate Whole() { !Fails(|Input()|, answers) }
  }

  class Pipe {
    var content: seq<char>

    constructor ()
      ensures content == []
    {
      content := [];
    }

    /** Takes in what the source has, then moves that many bytes from the front of the pipe. */
    method ZeroCopy(call: Copy) returns (result: int, output: seq<char>)
      modifies this
      ensures
        var input := if call.data.None? then [] else call.data.value;
        var k := Moved(|input|, call.answers);
        && content == (old(content) + input)[k..] && output == (old(content) + input)[..k]
        && result == if call.data.None? then -1 else k
    {
      output := [];
      if call.data.None? {
        return -1, output;
      }
      var len := |call.data.value|;
      content := content + call.data.value;
      if len == 0 {
        return 0, output;
      }
      ghost var all := content;
      var left := call.answers;
      result := 0;
      while len > 0
        invariant 0 <= result <= call.Total() && len == |call.Input()| - result
        invariant result + Moved(len, left) == call.Total()
        invariant output == all[..result] && content == all[result..]
        decreases |left|
      {
        if |left| == 0 || left[0] < 0 {
          break;
        }
        var slen := Progress(left[0], len);
        output, content := output + content[..slen], content[slen..];
        len, result := len - slen, result + slen;
        left := left[1..];
      }
    }
  }

  /** What the pipe holds after a run of calls, starting empty. */
  function Held(calls: seq<Copy>): seq<char> {
    if |calls| == 0 then []
    else
      var front, last := calls[..|calls| - 1], calls[|calls| - 1];
      (Held(front) + last.Input())[last.Total()..]
  }

  /** What the last call of a non-empty run puts out. */
  function LastOutput(calls: seq<Copy>): seq<char>
    requires |calls| > 0
  {
    var front, last := calls[..|calls| - 1], calls[|calls| - 1];
    (Held(front) + last.Input())[..last.Total()]
  }

  /** Everything that went to `dst`, or to anybody when `dst` is `None`. */
  function Output(calls: seq<Copy>, dst: Option<int>): seq<char> {
    if |calls| == 0 then []
    else
      Output(calls[..|calls| - 1], dst) +
      if dst.None? || dst.value == calls[|calls| - 1].dst then LastOutput(calls) else []
  }

  /** Everything that was read for `dst`, or for anybody. */
  function Input(calls: seq<Copy>, dst: Option<int>): seq<char> {
    if |calls| == 0 then []
    else
      var last := calls[|calls| - 1];
      Input(calls[..|calls| - 1], dst) + if dst.None? || dst.value == last.dst then last.Input() else []
  }

  /** Over every run, what went in is what came out, followed by what the pipe still holds. */
  lemma {:induction false} PipeConserves(calls: seq<Copy>)
    ensures Input(calls, None) == Output(calls, None) + Held(calls)
  {
    if |calls| > 0 {
      var front, last := calls[..|calls| - 1], calls[|calls| - 1];
      PipeConserves(front);
      Splice(Output(front, None), Held(front), last.Input(), last.Total());
    }
  }

  lemma Splice(out: seq<char>, held: seq<char>, input: seq<char>, n: nat)
    requires n <= |held + input|
    ensures (out + (held + input)[..n]) + (held + input)[n..] == (out + held) + input
  {
  }

  lemma WholeIff(call: Copy)
    ensures call.Whole() <==> call.Total() == |call.Input()|
  {
    MovedAllIff(|call.Input()|, call.answers);
  }

  /** The pipe is empty after a run exactly when no output splice of the run failed: what one
      failed output leaves behind is never flushed by later calls. */
  lemma {:induction false} PipeEmptyIff(calls: seq<Copy>)
    ensures Held(calls) == [] <==> forall i :: 0 <= i < |calls| ==> calls[i].Whole()
  {
    if |calls| > 0 {
      var front, last := calls[..|calls| - 1], calls[|calls| - 1];
      PipeEmptyIff(front);
      WholeIff(last);
      assert |Held(calls)| == |Held(front)| + |last.Input()| - last.Total();
      assert forall i :: 0 <= i < |front| ==> front[i] == calls[i];
      assert (forall i :: 0 <= i < |calls| ==> calls[i].Whole())
        <==> (forall i :: 0 <= i < |front| ==> front[i].Whole()) && last.Whole();
    }
  }

  /** While no output has failed, every destination gets exactly what was read for it. */
  lemma {:induction false} DestinationsGetTheirOwn(calls: seq<Copy>, dst: Option<int>)
    requires forall i :: 0 <= i < |calls| ==> calls[i].Whole()
    ensures Output(calls, dst) == Input(calls, dst)
    ensures |calls| > 0 ==> LastOutput(calls) == calls[|calls| - 1].Input()
  {
    if |calls| > 0 {
      var front, last := calls[..|calls| - 1], calls[|calls| - 1];
      DestinationsGetTheirOwn(front, dst);
      PipeEmptyIff(front);
      WholeIff(last);
      assert Held(front) + last.Input() == last.Input();
    }
  }

  /** A failed output costs its destination bytes. */
  lemma {:induction false} DestinationShort(calls: seq<Copy>, dst: int)
    ensures |Output(calls, Some(dst))| <= |Input(calls, Some(dst))|
    ensures |Output(calls, Some(dst))| == |Input(calls, Some(dst))| ==>
      forall i :: 0 <= i < |calls| && calls[i].dst == dst ==> calls[i].Whole()
  {
    if |calls| > 0 {
      var front, last := calls[..|calls| - 1], calls[|calls| - 1];
      DestinationShort(front, dst);
      WholeIff(last);
      assert |LastOutput(calls)| == last.Total();
      assert forall i :: 0 <= i < |front| ==> front[i] == calls[i];
    }
  }

  /** Over every run, all destinations have got exactly their own bytes if and only if no
      output splice failed. */
  lemma DestinationsIff(calls: seq<Copy>)
    ensures (forall dst: int :: Output(calls, Some(dst)) == Input(calls, Some(dst))) <==>
      forall i :: 0 <= i < |calls| ==> calls[i].Whole()
  {
    if forall i :: 0 <= i < |calls| ==> calls[i].Whole() {
      forall dst: int ensures Output(calls, Some(dst)) == Input(calls, Some(dst)) {
        DestinationsGetTheirOwn(calls, Some(dst));
      }
    }
    if forall dst: int :: Output(calls, Some(dst)) == Input(calls, Some(dst)) {
      forall i | 0 <= i < |calls| ensures calls[i].Whole() {
        assert Output(calls, Some(calls[i].dst)) == Input(calls, Some(calls[i].dst));
        DestinationShort(calls, calls[i].dst);
      }
    }
  }

  /** For whom byte number `k` of everything read was read. */
  function OwnerOf(calls: seq<Copy>, k: nat): int
    requires k < |Input(calls, None)|
  {
    var front := calls[..|calls| - 1];
    if k < |Input(front, None)| then OwnerOf(front, k) else calls[|calls| - 1].dst
  }

  lemma {:induction false} OwnerIsDestination(calls: seq<Copy>, k: nat)
    requires k < |Input(calls, None)|
    ensures exists i :: 0 <= i < |calls| && calls[i].dst == OwnerOf(calls, k)
  {
    var front := calls[..|calls| - 1];
    if k < |Input(front, None)| {
      OwnerIsDestination(front, k);
      var i :| 0 <= i < |front| && front[i].dst == OwnerOf(front, k);
      assert calls[i].dst == OwnerOf(calls, k);
    } else {
      assert calls[|calls| - 1].dst == OwnerOf(calls, k);
    }
  }

  /** After a failed output, the next call that gets a byte out delivers, first of all, the
      oldest byte left behind, whoever it was read for; a destination that none of the
      earlier calls had gets a byte read for another. */
  lemma LeftoverGoesToNext(calls: seq<Copy>, next: Copy)
    requires exists i :: 0 <= i < |calls| && !calls[i].Whole()
    requires next.Total() > 0
    ensures
      var oldest := |Output(calls, None)|;
      && oldest < |Input(calls, None)|
      && LastOutput(calls + [next])[0] == Input(calls, None)[oldest]
      && ((forall i :: 0 <= i < |calls| ==> calls[i].dst != next.dst) ==> OwnerOf(calls, oldest) != next.dst)
  {
    PipeEmptyIff(calls);
    PipeConserves(calls);
    assert (calls + [next])[..|calls|] == calls;
    OwnerIsDestination(calls, |Output(calls, None)|);
  }

  /** A run of two calls. */
  lemma TwoCalls(a: Copy, b: Copy, dst: int)
    ensures
      var x, y := if dst == a.dst then a.Input() else [], if dst == b.dst then b.Input() else [];
      Input([a, b], Some(dst)) == x + y
    ensures
      var held := a.Input()[a.Total()..];
      var x := if dst == a.dst then a.Input()[..a.Total()] else [];
      var y := if dst == b.dst then (held + b.Input())[..b.Total()] else [];
      Output([a, b], Some(dst)) == x + y
  {
    assert [a, b][..1] == [a] && [a][..0] == [];
    assert [] + a.Input() == a.Input();
    assert Input([a], Some(dst)) == if dst == a.dst then a.Input() else [];
    assert LastOutput([a]) == a.Input()[..a.Total()] && Held([a]) == a.Input()[a.Total()..];
    assert Output([a], Some(dst)) == if dst == a.dst then LastOutput([a]) else [];
    assert LastOutput([a, b]) == (Held([a]) + b.Input())[..b.Total()];
  }

  /** Destination 9 is sent the byte read for destination 7, instead of its own. */
  lemma ForeignByte() returns (calls: seq<Copy>)
    ensures calls == [Copy(7, Some("ab"), [1, -1]), Copy(9, Some("c"), [1])]
    ensures Input(calls, Some(7)) == "ab" && Input(calls, Some(9)) == "c"
    ensures Output(calls, Some(7)) == "a" && Output(calls, Some(9)) == "b"
  {
    var a, b := Copy(7, Some("ab"), [1, -1]), Copy(9, Some("c"), [1]);
    calls := [a, b];
    assert Moved(1, [1, -1][1..]) == 0;
    assert a.Total() == 1 && b.Total() == 1;
    TwoCalls(a, b, 7);
    TwoCalls(a, b, 9);
  }
}
