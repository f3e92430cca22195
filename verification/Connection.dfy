/** The output path of one connection: an ordered sender over a socket that may take less
    than it is offered (src/network/tcp_connection.cc), with the interest mask kept both in
    the connection's context and in the kernel (channel.cc, demultiplex.cc).

    Two variants are modelled. `AsWritten` is the code. `Intended` differs in the two places
    where the code loses the mask: enabling writes keeps the old mask, and disabling them
    hands over a modify context instead of one whose cast yields null. */
module Connection {
  import opened Basics
  import opened Buffer

  type Mask = bv32

  const READABLE: Mask := 0x0001
  const WRITABLE: Mask := 0x0004
  const CLOSABLE: Mask := 0x0008 | 0x0010 | 0x2000
  const EDGE_TRIGGERED: Mask := 0x8000_0000
  const DEFAULT_EVENTS: Mask := READABLE | CLOSABLE | EDGE_TRIGGERED

  predicate Has(mask: Mask, event: Mask) { mask & event != 0 }

  datatype Variant = AsWritten | Intended

  /** `crashed` records a null dereference; nothing happens after it. */
  datatype State = State(
    connected: bool,
    crashed: bool,
    pending: seq<char>,   // readable bytes of the send buffer
    cached: Mask,         // events_ of the register context
    kernel: Mask,         // interest registered with epoll
    accepted: seq<char>)  // what the socket has taken so far
  {
    predicate Live() { connected && !crashed }
  }

  const FRESH := State(true, false, [], DEFAULT_EVENTS, DEFAULT_EVENTS, [])

  /** How many of `len` offered bytes the socket takes when `write` answers `wrote`. */
  function Took(wrote: int, len: nat): (n: nat)
    ensures n <= len
    ensures if wrote < 0 then n == 0 else if wrote <= len then n == wrote else n == len
  {
    if wrote < 0 then 0 else if wrote > len then len else wrote
  }

  // ----- one call -----

  function WithMask(s: State, mask: Mask): State { s.(cached := mask, kernel := mask) }

  function EnableMask(v: Variant, cached: Mask): Mask {
    (if v.AsWritten? then 0 else cached) | WRITABLE
  }

  function AfterSend(v: Variant, s: State, data: seq<char>, wrote: int): State {
    if !s.Live() then s
    else
      var direct := !Has(s.cached, WRITABLE) && s.pending == [];
      var n := if direct then Took(wrote, |data|) else 0;
      var s' := s.(accepted := s.accepted + data[..n], pending := s.pending + data[n..]);
      if n < |data| && !Has(s.cached, WRITABLE) then WithMask(s', EnableMask(v, s.cached)) else s'
  }

  function AfterSendInLoop(v: Variant, s: State, wrote: int): State {
    if s.crashed || s.pending == [] || !Has(s.cached, READABLE) then s
    else
      var n := Took(wrote, |s.pending|);
      var s' := s.(accepted := s.accepted + s.pending[..n], pending := s.pending[n..]);
      if n == 0 || s'.pending != [] then s'
      else if v.AsWritten? then s'.(crashed := true)
      else WithMask(s', DEFAULT_EVENTS)
  }

  // ----- whole runs -----

  datatype Step = Send(data: seq<char>, wrote: int) | SendInLoop(wrote: int) | Disconnect

  function Next(v: Variant, s: State, step: Step): State {
    match step
    case Send(data, wrote) => AfterSend(v, s, data, wrote)
    case SendInLoop(wrote) => AfterSendInLoop(v, s, wrote)
    case Disconnect => if s.crashed then s else s.(connected := false)
  }

  function Run(v: Variant, steps: seq<Step>): State {
    if |steps| == 0 then FRESH else Next(v, Run(v, steps[..|steps| - 1]), steps[|steps| - 1])
  }

  /** Everything handed to `send` while the connection was up. */
  function Payload(v: Variant, steps: seq<Step>): seq<char> {
    if |steps| == 0 then []
    else
      var front, last := steps[..|steps| - 1], steps[|steps| - 1];
      Payload(v, front) + if last.Send? && Run(v, front).Live() then last.data else []
  }

  lemma SendConserves(v: Variant, s: State, data: seq<char>, wrote: int)
    requires s.Live()
    ensures AfterSend(v, s, data, wrote).accepted + AfterSend(v, s, data, wrote).pending
         == s.accepted + s.pending + data
  {
    var direct := !Has(s.cached, WRITABLE) && s.pending == [];
    var n := if direct then Took(wrote, |data|) else 0;
    assert data == data[..n] + data[n..];
    assert n == 0 || s.pending == [];
    assert (s.accepted + data[..n]) + (s.pending + data[n..]) == s.accepted + s.pending + data;
  }

  lemma SendInLoopConserves(v: Variant, s: State, wrote: int)
    ensures AfterSendInLoop(v, s, wrote).accepted + AfterSendInLoop(v, s, wrote).pending
         == s.accepted + s.pending
  {
    var n := Took(wrote, |s.pending|);
    assert (s.accepted + s.pending[..n]) + s.pending[n..] == s.accepted + s.pending;
  }

  /** What the socket took, followed by the send buffer, is the concatenation of all
      payloads: nothing is lost, duplicated or reordered, in either variant. */
  lemma {:induction false} OutputConserved(v: Variant, steps: seq<Step>)
    ensures Run(v, steps).accepted + Run(v, steps).pending == Payload(v, steps)
  {
    if |steps| > 0 {
      var front, last := steps[..|steps| - 1], steps[|steps| - 1];
      OutputConserved(v, front);
      match last
      case Send(data, wrote) =>
        if Run(v, front).Live() {
          SendConserves(v, Run(v, front), data, wrote);
        }
      case SendInLoop(wrote) =>
        SendInLoopConserves(v, Run(v, front), wrote);
      case Disconnect =>
    }
  }

  /** The masks a variant can ever have, given whether bytes are pending. */
  predicate MaskInv(v: Variant, s: State) {
    && s.cached == s.kernel
    && !s.crashed
    && s.cached ==
       if s.pending == [] then DEFAULT_EVENTS
       else if v.AsWritten? then WRITABLE
       else DEFAULT_EVENTS | WRITABLE
  }

  lemma MaskBits()
    ensures !Has(DEFAULT_EVENTS, WRITABLE) && Has(DEFAULT_EVENTS, READABLE)
    ensures Has(WRITABLE, WRITABLE) && !Has(WRITABLE, READABLE)
    ensures Has(DEFAULT_EVENTS | WRITABLE, WRITABLE) && Has(DEFAULT_EVENTS | WRITABLE, READABLE)
    ensures EnableMask(AsWritten, DEFAULT_EVENTS) == WRITABLE
    ensures EnableMask(Intended, DEFAULT_EVENTS) == DEFAULT_EVENTS | WRITABLE
  {
  }

  lemma MaskStep(v: Variant, s: State, step: Step)
    requires MaskInv(v, s)
    ensures MaskInv(v, Next(v, s, step))
    ensures Next(v, s, step).connected == (s.connected && !step.Disconnect?)
    ensures v.AsWritten? && s.pending != [] ==>
      && Next(v, s, step).accepted == s.accepted
      && s.pending <= Next(v, s, step).pending
  {
    MaskBits();
  }

  /** In every reachable state the cached mask is the kernel's, pending bytes are watched for
      writability, and the bad cast in `disableWrite` has not been reached by `sendInLoop`. */
  lemma {:induction false} MasksAgree(v: Variant, steps: seq<Step>)
    ensures MaskInv(v, Run(v, steps))
    ensures Run(v, steps).pending != [] ==> Has(Run(v, steps).kernel, WRITABLE)
  {
    MaskBits();
    if |steps| > 0 {
      MasksAgree(v, steps[..|steps| - 1]);
      MaskStep(v, Run(v, steps[..|steps| - 1]), steps[|steps| - 1]);
    }
  }

  // ----- the code as written: a short write is never completed -----

  /** Did this step leave part of a payload behind? */
  predicate ShortSend(step: Step) {
    step.Send? && Took(step.wrote, |step.data|) < |step.data|
  }

  /** No `send` up to the first disconnect is cut short. */
  predicate AllWhole(steps: seq<Step>) {
    forall i :: 0 <= i < |steps| && Disconnect !in steps[..i] ==> !ShortSend(steps[i])
  }

  lemma {:induction false} ConnectedIff(v: Variant, steps: seq<Step>)
    ensures Run(v, steps).connected <==> Disconnect !in steps
  {
    if |steps| > 0 {
      var front := steps[..|steps| - 1];
      ConnectedIff(v, front);
      MasksAgree(v, front);
      MaskStep(v, Run(v, front), steps[|steps| - 1]);
      assert steps == front + [steps[|steps| - 1]];
    }
  }

  /** As written, once bytes are pending the socket never takes another one. */
  lemma {:induction false} StuckForever(steps: seq<Step>, more: seq<Step>)
    requires Run(AsWritten, steps).pending != []
    ensures Run(AsWritten, steps + more).accepted == Run(AsWritten, steps).accepted
    ensures Run(AsWritten, steps).pending <= Run(AsWritten, steps + more).pending
    decreases |more|
  {
    if |more| == 0 {
      assert steps + more == steps;
    } else {
      var front := more[..|more| - 1];
      StuckForever(steps, front);
      assert (steps + more)[..|steps + more| - 1] == steps + front;
      MasksAgree(AsWritten, steps + front);
      MaskStep(AsWritten, Run(AsWritten, steps + front), more[|more| - 1]);
    }
  }

  /** As written, all payload reaches the socket exactly when no write is ever short. */
  lemma DeliversIff(steps: seq<Step>)
    ensures Run(AsWritten, steps).accepted == Payload(AsWritten, steps) <==> AllWhole(steps)
  {
    OutputConserved(AsWritten, steps);
    PendingIff(steps);
  }

  /** The socket takes one of two bytes; the other one is never sent, although the socket would
      take it. */
  lemma ShortSendSticks() returns (steps: seq<Step>)
    ensures steps == [Send("ab", 1), SendInLoop(1)]
    ensures Run(AsWritten, steps).accepted == "a" && Payload(AsWritten, steps) == "ab"
  {
    steps := [] + [Send("ab", 1)] + [SendInLoop(1)];
    MaskBits();
    RunMore(AsWritten, [], Send("ab", 1));
    RunMore(AsWritten, [Send("ab", 1)], SendInLoop(1));
    assert [] + [Send("ab", 1)] == [Send("ab", 1)];
    var s := AfterSend(AsWritten, FRESH, "ab", 1);
    assert s.accepted == "a" && s.pending == "b" && s.cached == WRITABLE;
  }

  lemma RunMore(v: Variant, steps: seq<Step>, step: Step)
    ensures Run(v, steps + [step]) == Next(v, Run(v, steps), step)
    ensures Payload(v, steps + [step])
         == Payload(v, steps) + if step.Send? && Run(v, steps).Live() then step.data else []
  {
    assert (steps + [step])[..|steps|] == steps;
  }

  /** From a state with nothing pending, only a short send leaves something pending. */
  lemma PendingStep(s: State, step: Step)
    requires MaskInv(AsWritten, s)
    ensures Next(AsWritten, s, step).pending == [] <==>
      s.pending == [] && !(s.connected && ShortSend(step))
  {
    MaskBits();
  }

  lemma WholeSplit(steps: seq<Step>)
    requires |steps| > 0
    ensures
      var front, last := steps[..|steps| - 1], steps[|steps| - 1];
      AllWhole(steps) <==> AllWhole(front) && !(Disconnect !in front && ShortSend(last))
  {
    var front := steps[..|steps| - 1];
    assert forall i :: 0 <= i < |front| ==> front[i] == steps[i] && front[..i] == steps[..i];
    assert steps[..|steps| - 1] == front;
  }

  lemma {:induction false} PendingIff(steps: seq<Step>)
    ensures Run(AsWritten, steps).pending == [] <==> AllWhole(steps)
  {
    if |steps| > 0 {
      var front, last := steps[..|steps| - 1], steps[|steps| - 1];
      PendingIff(front);
      ConnectedIff(AsWritten, front);
      MasksAgree(AsWritten, front);
      PendingStep(Run(AsWritten, front), last);
      WholeSplit(steps);
    }
  }

  /** The bad cast: were READABLE set, the write that empties the buffer would crash. */
  lemma BadCastCrashes(s: State, wrote: int)
    requires !s.crashed && s.pending != [] && s.cached & READABLE != 0
    ensures AfterSendInLoop(AsWritten, s, wrote).crashed <==> wrote >= |s.pending|
  {
  }

  // ----- the intended mask: the buffer drains -----

  /** Every write event that takes a byte brings the end closer; the last one restores the
      default interest. */
  lemma DrainStep(steps: seq<Step>, wrote: int)
    requires Run(Intended, steps).pending != [] && wrote > 0
    ensures
      var s, s' := Run(Intended, steps), AfterSendInLoop(Intended, Run(Intended, steps), wrote);
      && |s'.pending| < |s.pending|
      && |s'.pending| == (if wrote <= |s.pending| then |s.pending| - wrote else 0)
      && s'.accepted + s'.pending == s.accepted + s.pending
      && (s'.pending == [] ==> s'.kernel == s'.cached == DEFAULT_EVENTS)
  {
    MasksAgree(Intended, steps);
    MaskBits();
    var s := Run(Intended, steps);
    var n := Took(wrote, |s.pending|);
    assert s.pending == s.pending[..n] + s.pending[n..];
  }

  /** As many productive write events as there are pending bytes always empty the buffer. */
  lemma Drains(steps: seq<Step>, writes: seq<int>)
    requires forall k :: 0 <= k < |writes| ==> writes[k] > 0
    requires |writes| >= |Run(Intended, steps).pending|
    ensures
      var events := seq(|writes|, k requires 0 <= k < |writes| => SendInLoop(writes[k]));
      && Run(Intended, steps + events).pending == []
      && Run(Intended, steps + events).accepted == Payload(Intended, steps)
      && Run(Intended, steps + events).kernel == DEFAULT_EVENTS
  {
    var events := seq(|writes|, k requires 0 <= k < |writes| => SendInLoop(writes[k]));
    DrainsBy(steps, events);
    OutputConserved(Intended, steps + events);
    MasksAgree(Intended, steps + events);
  }

  lemma {:induction false} DrainsBy(steps: seq<Step>, events: seq<Step>)
    requires forall k :: 0 <= k < |events| ==> events[k].SendInLoop? && events[k].wrote > 0
    ensures |Run(Intended, steps + events).pending| + |events| <= |Run(Intended, steps).pending|
         || Run(Intended, steps + events).pending == []
    ensures Payload(Intended, steps + events) == Payload(Intended, steps)
    decreases |events|
  {
    if |events| == 0 {
      assert steps + events == steps;
    } else {
      var front := events[..|events| - 1];
      DrainsBy(steps, front);
      assert (steps + events)[..|steps + events| - 1] == steps + front;
      if Run(Intended, steps + front).pending != [] {
        DrainStep(steps + front, events[|events| - 1].wrote);
      }
    }
  }

  // ----- the implementation -----

  /** DmpModifyContext: a fresh one has an empty mask. */
  class ModifyContext {
    var fd: int
    var events: Mask

    constructor ()
      ensures fd == -1 && events == 0
    {
      fd, events := -1, 0;
    }
  }

  class TcpConnection {
    const variant: Variant
    const sockfd: int
    const sendBuffer: ArrayBuffer
    var connected: bool
    var crashed: bool
    var events: Mask
    var kernelEvents: Mask
    var accepted: seq<char>

    ghost predicate Valid()
      reads this, sendBuffer
    {
      sendBuffer.Valid()
    }

    ghost function View(): State
      reads this, sendBuffer, sendBuffer.buffer
      requires Valid()
    {
      State(connected, crashed, sendBuffer.Contents(), events, kernelEvents, accepted)
    }

    /** A connection that has just been registered with the default events. */
    constructor (variant: Variant, fd: int)
      ensures Valid() && View() == FRESH && fresh(sendBuffer) && fresh(sendBuffer.buffer)
      ensures this.variant == variant && sockfd == fd
    {
      this.variant, sockfd := variant, fd;
      connected, crashed := true, false;
      events, kernelEvents, accepted := DEFAULT_EVENTS, DEFAULT_EVENTS, [];
      sendBuffer := new ArrayBuffer(PACKETSIZE);
    }

    /** The socket's answer to `write` is `wrote`; it takes no more than it is offered. */
    method Write(data: seq<char>, wrote: int) returns (n: int)
      modifies this`accepted
      ensures n == if wrote < 0 then -1 else Took(wrote, |data|)
      ensures accepted == old(accepted) + data[..Took(wrote, |data|)]
    {
      n := if wrote < 0 then -1 else Took(wrote, |data|);
      accepted := accepted + data[..Took(wrote, |data|)];
    }

    /** demultiplexModify: the server copies the mask into the context, then the kernel. */
    method DemultiplexModify(ctx: ModifyContext)
      requires ctx.fd == sockfd
      modifies this`events, this`kernelEvents
      ensures events == kernelEvents == ctx.events
    {
      events := ctx.events;
      kernelEvents := ctx.events;
    }

    method EnableWrite(ctx: ModifyContext)
      modifies ctx, this`events, this`kernelEvents
      ensures events == kernelEvents == old(ctx.events) | WRITABLE
    {
      ctx.fd := sockfd;
      ctx.events := ctx.events | WRITABLE;
      DemultiplexModify(ctx);
    }

    /** A null context is what the failed cast yields. */
    method DisableWrite(ctx: ModifyContext?)
      modifies ctx, this`events, this`kernelEvents, this`crashed
      ensures ctx == null ==> crashed && events == old(events) && kernelEvents == old(kernelEvents)
      ensures ctx != null ==> crashed == old(crashed) && events == kernelEvents == DEFAULT_EVENTS
    {
      if ctx == null {
        crashed := true;
        return;
      }
      ctx.fd := sockfd;
      ctx.events := DEFAULT_EVENTS;
      DemultiplexModify(ctx);
    }

    method Send(buf: seq<char>, answer: int)
      requires Valid() && !crashed
      modifies this, sendBuffer, sendBuffer.buffer
      ensures Valid() && (sendBuffer.buffer == old(sendBuffer.buffer) || fresh(sendBuffer.buffer))
      ensures View() == AfterSend(variant, old(View()), buf, answer)
    {
      hide Took, EnableMask, Has;
      if !connected {
        return;
      }
      var wrote, remain := 0, |buf|;
      if !Has(events, WRITABLE) && sendBuffer.ReadableBytes() == 0 {
        wrote := Write(buf, answer);
        if wrote >= 0 {
          remain := |buf| - wrote;
        } else {
          wrote := 0;
        }
      }
      if remain > 0 {
        Keep(buf[wrote..]);
      } else {
        assert buf[wrote..] == [] && buf[..wrote] == buf;
      }
    }

    /** The tail of `send`: buffer what is left and watch for writability. */
    method Keep(rest: seq<char>)
      requires Valid() && rest != []
      modifies this`events, this`kernelEvents, sendBuffer, sendBuffer.buffer
      ensures Valid() && (sendBuffer.buffer == old(sendBuffer.buffer) || fresh(sendBuffer.buffer))
      ensures sendBuffer.Contents() == old(sendBuffer.Contents()) + rest
      ensures if Has(old(events), WRITABLE)
        then events == old(events) && kernelEvents == old(kernelEvents)
        else events == kernelEvents == EnableMask(variant, old(events))
    {
      var _ := sendBuffer.Append(Some(rest));
      var change := new ModifyContext();
      if variant.Intended? {
        change.events := events;
      }
      if !Has(events, WRITABLE) {
        EnableWrite(change);
      }
    }

    method SendInLoop(answer: int)
      requires Valid() && !crashed
      modifies this, sendBuffer
      ensures Valid() && sendBuffer.buffer == old(sendBuffer.buffer)
      ensures View() == AfterSendInLoop(variant, old(View()), answer)
    {
      if sendBuffer.ReadableBytes() == 0 {
        return;
      }
      if Has(events, READABLE) {
        var wrote := Write(sendBuffer.Peek(), answer);
        if wrote > 0 {
          var _ := sendBuffer.Retrieve(wrote);
          if sendBuffer.ReadableBytes() == 0 {
            var change: ModifyContext? := null;
            if variant.Intended? {
              change := new ModifyContext();
            }
            DisableWrite(change);
          }
        }
      }
    }
  }
}
