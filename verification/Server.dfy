/** The connection table of the server and its re-entrant teardown (src/network/tcp_server.cc
    with channel.cc, demultiplex.cc and tcp_connection.cc), for one event loop in the Debug
    build. Closing a connection calls back into the server from inside `disconnect`, which
    destroys the connection it was called on; the server then removes it a second time. */
module Server {
  import opened Basics
  import opened Connection

  /** A connection in the table: its output side, and `leave_` of its channel. */
  datatype Conn = Conn(out: State, leave: bool)

  /** One epoll report, with the socket's answer should the handler write to it. */
  datatype Event = Event(fd: int, mask: Mask, answer: int)

  datatype World = World(
    conns: map<int, Conn>,      // conn_map_
    interest: map<int, Mask>,   // what the kernel watches
    open: set<int>,             // client descriptors that are open
    admitted: seq<int>,           // every descriptor accepted, in order
    closed: seq<int>,           // every close(), in order
    total: int,                 // total_conn_
    reentered: nat)             // times ~Channel had to call leave() itself

  const NEW_CONN := Conn(FRESH, false)
  const EMPTY := World(map[], map[], {}, [], [], 0, 0)

  // ----- what one call does -----

  /** epoll_ctl(DEL), which fails and changes nothing if `fd` is not watched. */
  function Dropped(interest: map<int, Mask>, fd: int): (rest: map<int, Mask>)
    ensures fd !in rest
  {
    if fd in interest then interest - {fd} else interest
  }

  function Registered(w: World, fd: int): World {
    w.(conns := w.conns[fd := NEW_CONN], interest := w.interest[fd := DEFAULT_EVENTS],
       open := w.open + {fd}, admitted := w.admitted + [fd], total := w.total + 1)
  }

  /** A connection leaves the table and its socket is closed. */
  function Removed(w: World, fd: int): World {
    if fd !in w.conns then w
    else Destroyed(w.(conns := w.conns - {fd}, total := w.total - 1), fd, w.conns[fd].leave)
  }

  /** `leave` on the channel of `fd`: flag it, have the server remove it, tell the kernel. */
  function Left(w: World, fd: int): World {
    if fd in w.conns then Removed(w.(conns := w.conns[fd := w.conns[fd].(leave := true)]), fd)
    else w.(interest := Dropped(w.interest, fd))
  }

  /** The end of a connection that is out of the table: its socket is closed, and a channel
      that has not left does so now. */
  function Destroyed(w: World, fd: int, leave: bool): World {
    w.(interest := Dropped(w.interest, fd), open := w.open - {fd}, closed := w.closed + [fd],
       reentered := w.reentered + if leave then 0 else 1)
  }

  function Updated(w: World, fd: int, out: State): World
    requires fd in w.conns
  {
    w.(conns := w.conns[fd := w.conns[fd].(out := out)], interest := w.interest[fd := out.kernel])
  }

  predicate Forwards(e: Event) { Has(e.mask, READABLE) && !Has(e.mask, CLOSABLE) }

  /** Readiness to write comes first: a hang-up reported together with it closes nothing. */
  predicate Closes(e: Event) { !Forwards(e) && !Has(e.mask, WRITABLE) && Has(e.mask, CLOSABLE) }

  function Handled(v: Variant, w: World, e: Event): World {
    if e.fd !in w.conns || Forwards(e) then w
    else if Has(e.mask, WRITABLE) then Updated(w, e.fd, AfterSendInLoop(v, w.conns[e.fd].out, e.answer))
    else if Closes(e) then Left(w, e.fd)
    else w
  }

  function HandledAll(v: Variant, w: World, events: seq<Event>): World {
    if |events| == 0 then w
    else Handled(v, HandledAll(v, w, events[..|events| - 1]), events[|events| - 1])
  }

  /** The sockets a batch hands to the balancer. */
  function Forwarded(v: Variant, w: World, events: seq<Event>): seq<int> {
    if |events| == 0 then []
    else
      var front, e := events[..|events| - 1], events[|events| - 1];
      Forwarded(v, w, front) +
      if e.fd in HandledAll(v, w, front).conns && Forwards(e) then [e.fd] else []
  }

  // ----- the invariant -----

  ghost predicate Valid(v: Variant, w: World) {
    && w.conns.Keys == w.interest.Keys == w.open
    && w.total == |w.conns|
    && w.reentered == 0
    && multiset(w.admitted) == multiset(w.closed) + multiset(w.conns.Keys)
    && forall fd :: fd in w.conns ==>
         !w.conns[fd].leave && MaskInv(v, w.conns[fd].out) && w.interest[fd] == w.conns[fd].out.cached
  }

  lemma RegisteredValid(v: Variant, w: World, fd: int)
    requires Valid(v, w) && fd !in w.open
    ensures Valid(v, Registered(w, fd))
  {
    var w' := Registered(w, fd);
    assert w'.conns.Keys == w.conns.Keys + {fd};
    assert multiset(w'.conns.Keys) == multiset(w.conns.Keys) + multiset{fd};
  }

  /** A connection whose channel has left goes away without re-entering. */
  lemma ClosedValid(v: Variant, w: World, fd: int)
    requires Valid(v, w) && fd in w.conns
    ensures Valid(v, Left(w, fd))
  {
    var left := w.(conns := w.conns[fd := w.conns[fd].(leave := true)]);
    assert left.conns.Keys == w.conns.Keys;
    var w' := Removed(left, fd);
    assert w'.conns.Keys == w.conns.Keys - {fd};
    assert multiset(w.conns.Keys) == multiset(w'.conns.Keys) + multiset{fd};
  }

  lemma UpdatedValid(v: Variant, w: World, fd: int, step: Step)
    requires Valid(v, w) && fd in w.conns
    ensures Valid(v, Updated(w, fd, Next(v, w.conns[fd].out, step)))
  {
    MaskStep(v, w.conns[fd].out, step);
    var w' := Updated(w, fd, Next(v, w.conns[fd].out, step));
    assert w'.conns.Keys == w.conns.Keys;
  }

  lemma HandledValid(v: Variant, w: World, e: Event)
    requires Valid(v, w)
    ensures Valid(v, Handled(v, w, e))
  {
    if e.fd in w.conns && !Forwards(e) {
      if Has(e.mask, WRITABLE) {
        UpdatedValid(v, w, e.fd, SendInLoop(e.answer));
      } else if Closes(e) {
        ClosedValid(v, w, e.fd);
      }
    }
  }

  lemma {:induction false} BatchValid(v: Variant, w: World, events: seq<Event>)
    requires Valid(v, w)
    ensures Valid(v, HandledAll(v, w, events))
  {
    if |events| > 0 {
      BatchValid(v, w, events[..|events| - 1]);
      HandledValid(v, HandledAll(v, w, events[..|events| - 1]), events[|events| - 1]);
    }
  }

  // ----- teardown happens exactly once -----

  /** A report of a hang-up that does not say that the socket can be written. */
  predicate HangsUp(e: Event) { e.mask & CLOSABLE != 0 && e.mask & WRITABLE == 0 }

  /** A report that there is something to read, and no hang-up. */
  predicate Requests(e: Event) { e.mask & READABLE != 0 && e.mask & CLOSABLE == 0 }

  lemma BranchesTaken(e: Event)
    ensures Forwards(e) <==> Requests(e)
    ensures Closes(e) <==> HangsUp(e)
  {
  }

  /** The connections a batch closes. */
  function ClosedFds(w: World, events: seq<Event>): set<int> {
    set i | 0 <= i < |events| && HangsUp(events[i]) && events[i].fd in w.conns :: events[i].fd
  }

  /** From `w` to `w'` exactly the connections `gone` went, each of them once. */
  ghost predicate Torn(w: World, w': World, gone: set<int>) {
    && w'.conns.Keys == w.conns.Keys - gone
    && gone <= w.conns.Keys
    && w'.total == w.total - |gone|
    && w.closed <= w'.closed
    && multiset(w'.closed[|w.closed|..]) == multiset(gone)
  }

  /** One report either closes its connection or leaves table, log and counter alone. */
  lemma HandledEffect(v: Variant, w: World, e: Event)
    ensures
      var w' := Handled(v, w, e);
      if HangsUp(e) && e.fd in w.conns
      then w'.conns.Keys == w.conns.Keys - {e.fd} && w'.closed == w.closed + [e.fd] && w'.total == w.total - 1
      else w'.conns.Keys == w.conns.Keys && w'.closed == w.closed && w'.total == w.total
  {
    BranchesTaken(e);
    if HangsUp(e) && e.fd in w.conns {
      assert w.conns[e.fd := w.conns[e.fd].(leave := true)].Keys == w.conns.Keys;
    } else if e.fd in w.conns {
      assert Updated(w, e.fd, w.conns[e.fd].out).conns.Keys == w.conns.Keys;
    }
  }

  lemma TornOnce(w: World, m: World, w': World, gone: set<int>, fd: int)
    requires Torn(w, m, gone) && fd in m.conns
    requires w'.conns.Keys == m.conns.Keys - {fd} && w'.closed == m.closed + [fd] && w'.total == m.total - 1
    ensures Torn(w, w', gone + {fd})
  {
    assert fd !in gone;
    assert w'.closed[|w.closed|..] == m.closed[|w.closed|..] + [fd];
    assert multiset(gone + {fd}) == multiset(gone) + multiset{fd};
  }

  /** Whatever a batch reports, and however often: exactly the connections with a closing
      event go; each is erased once, its socket closed once and the counter lowered once. */
  lemma {:induction false} TeardownExactlyOnce(v: Variant, w: World, events: seq<Event>)
    ensures Torn(w, HandledAll(v, w, events), ClosedFds(w, events))
  {
    if |events| > 0 {
      var front, e := events[..|events| - 1], events[|events| - 1];
      var m, gone := HandledAll(v, w, front), ClosedFds(w, front);
      TeardownExactlyOnce(v, w, front);
      HandledEffect(v, m, e);
      BranchesTaken(e);
      ClosedFdsSplit(w, events);
      if HangsUp(e) && e.fd in m.conns {
        TornOnce(w, m, HandledAll(v, w, events), gone, e.fd);
      } else if HangsUp(e) && e.fd in w.conns {
        assert gone + {e.fd} == gone;
      } else {
        assert gone + {} == gone;
      }
    }
  }

  lemma ClosedFdsSplit(w: World, events: seq<Event>)
    requires |events| > 0
    ensures
      var front, e := events[..|events| - 1], events[|events| - 1];
      ClosedFds(w, events) ==
        ClosedFds(w, front) + if HangsUp(e) && e.fd in w.conns then {e.fd} else {}
  {
    var front, e := events[..|events| - 1], events[|events| - 1];
    assert events == front + [e];
    forall fd | fd in ClosedFds(w, front) ensures fd in ClosedFds(w, events) {
      var i :| 0 <= i < |front| && HangsUp(front[i]) && front[i].fd in w.conns && front[i].fd == fd;
      assert events[i] == front[i];
    }
    forall fd | fd in ClosedFds(w, events)
      ensures fd in ClosedFds(w, front) || (HangsUp(e) && e.fd in w.conns && fd == e.fd)
    {
      var i :| 0 <= i < |events| && HangsUp(events[i]) && events[i].fd in w.conns && events[i].fd == fd;
      assert i < |front| ==> front[i] == events[i];
    }
    if HangsUp(e) && e.fd in w.conns {
      assert events[|events| - 1] == e;
    }
  }

  /** Of a connection that hangs up in every report, the batch leaves it in the table exactly
      when every one of these reports says that it can be written as well. */
  lemma HangUpIgnoredIff(v: Variant, w: World, events: seq<Event>, fd: int)
    requires fd in w.conns
    requires forall i :: 0 <= i < |events| && events[i].fd == fd ==> Has(events[i].mask, CLOSABLE)
    ensures fd in HandledAll(v, w, events).conns <==>
      forall i :: 0 <= i < |events| && events[i].fd == fd ==> Has(events[i].mask, WRITABLE)
  {
    TeardownExactlyOnce(v, w, events);
    if i :| 0 <= i < |events| && events[i].fd == fd && !Has(events[i].mask, WRITABLE) {
      assert HangsUp(events[i]);
      assert fd in ClosedFds(w, events);
    }
  }

  /** A socket is handed to the balancer exactly for each readable report that comes before
      any closing report for it. */
  lemma {:induction false} ForwardedIff(v: Variant, w: World, events: seq<Event>)
    ensures Forwarded(v, w, events) == Readable(w, events, |events|)
  {
    if |events| > 0 {
      var n := |events| - 1;
      var front := events[..n];
      ForwardedIff(v, w, front);
      TeardownExactlyOnce(v, w, front);
      BranchesTaken(events[n]);
      ReadablePrefix(w, events, front, n);
    }
  }

  /** The readable reports among the first `n`, leaving out those already closed. */
  function Readable(w: World, events: seq<Event>, n: nat): seq<int>
    requires n <= |events|
  {
    if n == 0 then []
    else
      var e := events[n - 1];
      Readable(w, events, n - 1) +
      if Requests(e) && e.fd in w.conns && e.fd !in ClosedFds(w, events[..n - 1]) then [e.fd] else []
  }

  lemma {:induction false} ReadablePrefix(w: World, a: seq<Event>, b: seq<Event>, n: nat)
    requires n <= |a| && n <= |b| && a[..n] == b[..n]
    ensures Readable(w, a, n) == Readable(w, b, n)
  {
    if n > 0 {
      assert a[..n][n - 1] == b[..n][n - 1] && a[..n][..n - 1] == a[..n - 1];
      assert b[..n][..n - 1] == b[..n - 1];
      ReadablePrefix(w, a, b, n - 1);
    }
  }

  // ----- whole runs of the server -----

  datatype Call = Accept(fd: int) | Batch(events: seq<Event>) | SendTo(fd: int, data: seq<char>, answer: int)

  /** `accept` never returns a descriptor that is still open. */
  function Stepped(v: Variant, w: World, c: Call): World {
    match c
    case Accept(fd) => if fd in w.open then w else Registered(w, fd)
    case Batch(events) => HandledAll(v, w, events)
    case SendTo(fd, data, answer) =>
      if fd in w.conns then Updated(w, fd, AfterSend(v, w.conns[fd].out, data, answer)) else w
  }

  function Ran(v: Variant, calls: seq<Call>): World {
    if |calls| == 0 then EMPTY else Stepped(v, Ran(v, calls[..|calls| - 1]), calls[|calls| - 1])
  }

  /** In every reachable state the counter is the table's size, the table, the kernel's
      interest and the open sockets have the same descriptors, every accepted socket is
      either still open or has been closed once, and every cached mask is the kernel's. */
  lemma {:induction false} AlwaysValid(v: Variant, calls: seq<Call>)
    ensures Valid(v, Ran(v, calls))
  {
    if |calls| > 0 {
      AlwaysValid(v, calls[..|calls| - 1]);
      var w, c := Ran(v, calls[..|calls| - 1]), calls[|calls| - 1];
      match c
      case Accept(fd) => if fd !in w.open { RegisteredValid(v, w, fd); }
      case Batch(events) => BatchValid(v, w, events);
      case SendTo(fd, data, answer) =>
        if fd in w.conns { UpdatedValid(v, w, fd, Send(data, answer)); }
    }
  }

  lemma RanMore(v: Variant, calls: seq<Call>, c: Call)
    ensures Ran(v, calls + [c]) == Stepped(v, Ran(v, calls), c)
  {
    assert (calls + [c])[..|calls|] == calls;
  }

  /** From every reachable state, `accept` makes a new connection, watched with the default
      events, for a descriptor that was not open. */
  lemma AcceptOutcome(v: Variant, calls: seq<Call>, fd: int)
    requires fd !in Ran(v, calls).open
    ensures
      var w, w' := Ran(v, calls), Ran(v, calls + [Accept(fd)]);
      && fd !in w.conns && w'.conns == w.conns[fd := NEW_CONN] && w'.interest == w.interest[fd := DEFAULT_EVENTS]
      && w'.open == w.open + {fd} && w'.admitted == w.admitted + [fd] && w'.closed == w.closed
      && w'.total == w.total + 1
  {
    AlwaysValid(v, calls);
    RanMore(v, calls, Accept(fd));
  }

  /** From `w` to `w'` one connection has taken one step on its output side, and the kernel
      watches it as this says; nothing else has changed. */
  ghost predicate Wrote(v: Variant, w: World, w': World, fd: int, step: Step) {
    && fd in w.conns && fd in w'.conns && fd in w'.interest
    && w'.conns[fd] == Conn(Next(v, w.conns[fd].out, step), w.conns[fd].leave)
    && w'.interest[fd] == w'.conns[fd].out.kernel
    && w'.conns - {fd} == w.conns - {fd} && w'.interest - {fd} == w.interest - {fd}
    && (w'.open, w'.admitted, w'.closed, w'.total, w'.reentered) == (w.open, w.admitted, w.closed, w.total, w.reentered)
  }

  lemma SendToOutcome(v: Variant, calls: seq<Call>, fd: int, data: seq<char>, answer: int)
    ensures
      var w, w' := Ran(v, calls), Ran(v, calls + [SendTo(fd, data, answer)]);
      if fd in w.conns then Wrote(v, w, w', fd, Send(data, answer)) else w' == w
  {
    RanMore(v, calls, SendTo(fd, data, answer));
  }

  lemma BatchMore(v: Variant, calls: seq<Call>, events: seq<Event>, e: Event)
    ensures Ran(v, calls + [Batch(events + [e])]) == Handled(v, Ran(v, calls + [Batch(events)]), e)
  {
    RanMore(v, calls, Batch(events));
    RanMore(v, calls, Batch(events + [e]));
    assert (events + [e])[..|events|] == events;
  }

  /** From every reachable state, what one more report at the end of a batch does, bit by bit:
      for a known descriptor a request is left to the balancer; otherwise the connection takes
      one writing step if it can be written, and goes if it has hung up. */
  lemma ReportOutcome(v: Variant, calls: seq<Call>, events: seq<Event>, e: Event)
    ensures
      var w, w' := Ran(v, calls + [Batch(events)]), Ran(v, calls + [Batch(events + [e])]);
      if e.fd !in w.conns || (e.mask & READABLE != 0 && e.mask & CLOSABLE == 0) then w' == w
      else if e.mask & WRITABLE != 0 then Wrote(v, w, w', e.fd, SendInLoop(e.answer))
      else if e.mask & CLOSABLE != 0 then
        && w'.conns == w.conns - {e.fd} && w'.interest == w.interest - {e.fd} && w'.open == w.open - {e.fd}
        && w'.closed == w.closed + [e.fd] && w'.total == w.total - 1 && w'.reentered == w.reentered
      else w' == w
  {
    BatchMore(v, calls, events, e);
    var w := Ran(v, calls + [Batch(events)]);
    if e.fd in w.conns && HangsUp(e) && !Requests(e) {
      AlwaysValid(v, calls + [Batch(events)]);
      assert w.conns[e.fd := w.conns[e.fd].(leave := true)] - {e.fd} == w.conns - {e.fd};
    }
  }

  lemma EmptyBatch(v: Variant, calls: seq<Call>)
    ensures Ran(v, calls + [Batch([])]) == Ran(v, calls)
  {
    RanMore(v, calls, Batch([]));
  }

  /** A connection with bytes pending, which as written are never sent. */
  ghost predicate Stuck(w: World, fd: int, out: State) {
    && fd in w.conns && w.conns[fd].out.pending != []
    && w.conns[fd].out.accepted == out.accepted
    && out.pending <= w.conns[fd].out.pending
  }

  predicate NoClosing(events: seq<Event>, fd: int) {
    forall i :: 0 <= i < |events| && events[i].fd == fd ==> !HangsUp(events[i])
  }

  lemma {:induction false} BatchStuck(w: World, events: seq<Event>, fd: int, out: State)
    requires Valid(AsWritten, w) && Stuck(w, fd, out) && NoClosing(events, fd)
    ensures Stuck(HandledAll(AsWritten, w, events), fd, out)
  {
    if |events| > 0 {
      var front, e := events[..|events| - 1], events[|events| - 1];
      assert forall i :: 0 <= i < |front| ==> front[i] == events[i];
      BatchStuck(w, front, fd, out);
      BatchValid(AsWritten, w, front);
      var m := HandledAll(AsWritten, w, front);
      BranchesTaken(e);
      if e.fd == fd && !Forwards(e) && Has(e.mask, WRITABLE) {
        MaskStep(AsWritten, m.conns[fd].out, SendInLoop(e.answer));
      }
    }
  }

  /** As written, over every run: after a short send, a connection stays in the table, and the
      socket takes no further byte from it, for as long as no report for it is a closing one;
      and a hang-up that is reported together with writability is none. */
  lemma {:induction false} StuckInTable(calls: seq<Call>, more: seq<Call>, fd: int)
    requires fd in Ran(AsWritten, calls).conns && Ran(AsWritten, calls).conns[fd].out.pending != []
    requires forall i :: 0 <= i < |more| && more[i].Batch? ==> NoClosing(more[i].events, fd)
    ensures Stuck(Ran(AsWritten, calls + more), fd, Ran(AsWritten, calls).conns[fd].out)
    decreases |more|
  {
    if |more| == 0 {
      assert calls + more == calls;
    } else {
      var front, last := more[..|more| - 1], more[|more| - 1];
      assert (calls + more)[..|calls + more| - 1] == calls + front;
      StuckInTable(calls, front, fd);
      AlwaysValid(AsWritten, calls + front);
      var w, out := Ran(AsWritten, calls + front), Ran(AsWritten, calls).conns[fd].out;
      match last
      case Accept(_) =>
      case Batch(events) => BatchStuck(w, events, fd, out);
      case SendTo(f, data, answer) =>
        if f == fd { MaskStep(AsWritten, w.conns[fd].out, Send(data, answer)); }
    }
  }

  // ----- the teardown, step by step -----

  /** What the loop thread still has to do after it has removed and closed a connection: ask
      the kernel to drop the descriptor, and then have the server remove it once more. */
  datatype Late = Idle | Dropping(fd: int) | Removing(fd: int)

  /** How far the acceptor's thread is with a connection: accepted, or in the table as well, and
      not yet known to the kernel. */
  datatype Coming = Nobody | Fresh(fd: int) | Entered(fd: int)

  datatype Split = Split(w: World, late: Late, coming: Coming, reported: seq<int>)   // closing reports, in order

  const QUIET := Split(EMPTY, Idle, Nobody, [])

  /** The acceptor's thread accepts, has the server enter the connection into its table, and the
      kernel watch it. The loop thread takes the next report only when it is through with the
      last. */
  datatype Half = Accepting(fd: int) | Entering | Watching | Reported(e: Event) | Continue

  function Flagged(w: World, fd: int): World
    requires fd in w.conns
  {
    w.(conns := w.conns[fd := w.conns[fd].(leave := true)])
  }

  function InTable(w: World, fd: int): World {
    w.(conns := w.conns[fd := NEW_CONN], total := w.total + 1)
  }

  /** epoll_ctl(ADD), which fails for a descriptor that has been closed. */
  function Added(w: World, fd: int): World {
    if fd in w.open then w.(interest := w.interest[fd := DEFAULT_EVENTS]) else w
  }

  function NextHalf(v: Variant, s: Split, h: Half): Split {
    match h
    case Accepting(fd) =>
      if !s.coming.Nobody? || fd in s.w.open then s
      else s.(w := s.w.(open := s.w.open + {fd}, admitted := s.w.admitted + [fd]), coming := Fresh(fd))
    case Entering =>
      if s.coming.Fresh? then s.(w := InTable(s.w, s.coming.fd), coming := Entered(s.coming.fd)) else s
    case Watching =>
      if s.coming.Entered? then s.(w := Added(s.w, s.coming.fd), coming := Nobody) else s
    case Reported(e) =>
      if !s.late.Idle? then s
      else if Closes(e) && e.fd in s.w.conns
        then s.(w := Removed(Flagged(s.w, e.fd), e.fd), late := Dropping(e.fd), reported := s.reported + [e.fd])
      else s.(w := Handled(v, s.w, e))
    case Continue =>
      match s.late
      case Idle => s
      case Dropping(fd) => s.(w := s.w.(interest := Dropped(s.w.interest, fd)), late := Removing(fd))
      case Removing(fd) => s.(w := Removed(s.w, fd), late := Idle)
  }

  function RunSplit(v: Variant, halves: seq<Half>): Split {
    if |halves| == 0 then QUIET
    else NextHalf(v, RunSplit(v, halves[..|halves| - 1]), halves[|halves| - 1])
  }

  /** Left alone, the steps are the handling of the report. */
  lemma UninterruptedIsHandled(v: Variant, s: Split, e: Event)
    requires s.late.Idle? && Closes(e) && e.fd in s.w.conns
    ensures NextHalf(v, NextHalf(v, NextHalf(v, s, Reported(e)), Continue), Continue)
      == s.(w := Handled(v, s.w, e), reported := s.reported + [e.fd])
  {
    hide HandledAll, AfterSendInLoop, Updated, Registered;
    var gone := Removed(Flagged(s.w, e.fd), e.fd);
    RemovalIsFinal(Flagged(s.w, e.fd), e.fd);
    assert NextHalf(v, s, Reported(e)) == s.(w := gone, late := Dropping(e.fd), reported := s.reported + [e.fd]);
  }

  lemma RemovalIsFinal(w: World, fd: int)
    requires fd in w.conns
    ensures Removed(w, fd).(interest := Dropped(Removed(w, fd).interest, fd)) == Removed(w, fd)
    ensures fd !in Removed(w, fd).conns
  {
  }

  /** Left alone, the acceptor's steps are the registration. */
  lemma UninterruptedIsRegistered(v: Variant, s: Split, fd: int)
    requires s.coming.Nobody? && fd !in s.w.open
    ensures NextHalf(v, NextHalf(v, NextHalf(v, s, Accepting(fd)), Entering), Watching)
      == s.(w := Registered(s.w, fd))
  {
  }

  /** A connection is entered into the table under the descriptor that is being torn down. */
  predicate EntersLate(s: Split, h: Half) {
    h.Entering? && s.coming.Fresh? && !s.late.Idle? && s.coming.fd == s.late.fd
  }

  predicate NeverEntersLate(v: Variant, halves: seq<Half>) {
    |halves| > 0 ==>
      var front, last := halves[..|halves| - 1], halves[|halves| - 1];
      NeverEntersLate(v, front) && !EntersLate(RunSplit(v, front), last)
  }

  /** The world as it is when the acceptor is through. */
  function Finished(s: Split): World {
    match s.coming
    case Nobody => s.w
    case Fresh(fd) => Added(InTable(s.w, fd), fd)
    case Entered(fd) => Added(s.w, fd)
  }

  /** A server that will be coherent, and has closed just the connections reported as closing. */
  ghost predicate Sound(v: Variant, s: Split) {
    && Valid(v, Finished(s))
    && s.w.closed == s.reported
    && (!s.late.Idle? ==> s.late.fd !in s.w.conns && (s.late.fd in s.w.open ==> s.coming == Fresh(s.late.fd)))
    && (s.coming.Fresh? ==> s.coming.fd in s.w.open && s.coming.fd !in s.w.conns)
  }

  lemma Exchange<T>(m: map<int, T>, a: int, x: T, b: int, y: T)
    requires a != b
    ensures m[a := x][b := y] == m[b := y][a := x]
    ensures (m - {a})[b := y] == m[b := y] - {a}
  {
  }

  /** Closing a connection and finishing what the acceptor is at can be exchanged. */
  lemma ClosingFinished(s: Split, fd: int)
    requires fd in s.w.conns
    requires s.coming.Fresh? ==> s.coming.fd !in s.w.conns
    ensures Finished(s.(w := Removed(Flagged(s.w, fd), fd))) == Left(Finished(s), fd)
  {
    hide Registered, Updated, HandledAll;
    var w := Flagged(s.w, fd);
    match s.coming
    case Nobody =>
    case Fresh(f) =>
      Exchange(s.w.conns, fd, s.w.conns[fd].(leave := true), f, NEW_CONN);
      Exchange(w.conns, fd, NEW_CONN, f, NEW_CONN);
      Exchange(s.w.interest, fd, DEFAULT_EVENTS, f, DEFAULT_EVENTS);
    case Entered(f) =>
      if f == fd {
        assert s.w.interest[f := DEFAULT_EVENTS] - {f} == Dropped(s.w.interest, f);
      } else {
        Exchange(s.w.interest, fd, DEFAULT_EVENTS, f, DEFAULT_EVENTS);
      }
  }

  lemma UpdatedFinished(s: Split, fd: int, out: State)
    requires fd in s.w.conns
    requires s.coming.Fresh? ==> s.coming.fd !in s.w.conns
    requires s.coming == Entered(fd) ==> out.kernel == DEFAULT_EVENTS
    ensures Finished(s.(w := Updated(s.w, fd, out))) == Updated(Finished(s), fd, out)
  {
    hide Registered, Removed, HandledAll;
    match s.coming
    case Nobody =>
    case Fresh(f) =>
      Exchange(s.w.conns, fd, s.w.conns[fd].(out := out), f, NEW_CONN);
      Exchange(s.w.interest, fd, out.kernel, f, DEFAULT_EVENTS);
    case Entered(f) =>
      if f != fd {
        Exchange(s.w.interest, fd, out.kernel, f, DEFAULT_EVENTS);
      }
  }

  /** The descriptor that the kernel is asked to drop is not watched. */
  lemma DroppedFinished(s: Split, fd: int)
    requires fd in s.w.open ==> s.coming == Fresh(fd)
    requires Finished(s).interest.Keys == s.w.open
    ensures Finished(s.(w := s.w.(interest := Dropped(s.w.interest, fd)))) == Finished(s)
  {
    hide Registered, Removed, Updated, HandledAll;
    var w, w' := Finished(s), Finished(s.(w := s.w.(interest := Dropped(s.w.interest, fd))));
    assert w.interest == w'.interest;
  }

  lemma ClosingSound(v: Variant, s: Split, e: Event)
    requires Sound(v, s) && s.late.Idle? && Closes(e) && e.fd in s.w.conns
    ensures Sound(v, NextHalf(v, s, Reported(e)))
  {
    hide Valid, Left, Handled;
    ClosingFinished(s, e.fd);
    FinishedTable(v, s);
    ClosedValid(v, Finished(s), e.fd);
    var s' := NextHalf(v, s, Reported(e));
    assert s'.w == Removed(Flagged(s.w, e.fd), e.fd);
    SameFinished(s', s.(w := s'.w));
  }

  /** Only the world and the acceptor matter. */
  lemma SameFinished(s: Split, s': Split)
    requires s.w == s'.w && s.coming == s'.coming
    ensures Finished(s) == Finished(s')
  {
  }

  lemma FinishedTable(v: Variant, s: Split)
    requires Sound(v, s)
    ensures s.w.conns.Keys <= Finished(s).conns.Keys
    ensures forall fd :: fd in s.w.conns ==> fd in s.w.open && s.w.conns[fd] == Finished(s).conns[fd]
    ensures Finished(s).interest.Keys == Finished(s).open == s.w.open
  {
    hide MaskInv;
  }

  /** Any other report leaves a connection on its way in as it has just been made. */
  lemma OtherSound(v: Variant, s: Split, e: Event)
    requires Sound(v, s) && s.late.Idle? && !(Closes(e) && e.fd in s.w.conns)
    ensures Sound(v, NextHalf(v, s, Reported(e)))
  {
    if e.fd in s.w.conns && !Forwards(e) && Has(e.mask, WRITABLE) {
      if s.coming == Entered(e.fd) { FreshOut(v, s, e.fd, e.answer); }
      WriteSound(v, s, e.fd, e.answer);
    }
  }

  lemma FreshOut(v: Variant, s: Split, fd: int, answer: int)
    requires Sound(v, s) && fd in s.w.conns && s.coming == Entered(fd)
    ensures AfterSendInLoop(v, s.w.conns[fd].out, answer).kernel == DEFAULT_EVENTS
  {
    hide HandledAll;
    FinishedTable(v, s);
    MaskBits();
    assert Finished(s).interest[fd] == DEFAULT_EVENTS;
  }

  lemma WriteSound(v: Variant, s: Split, fd: int, answer: int)
    requires Sound(v, s) && s.late.Idle? && fd in s.w.conns
    requires s.coming == Entered(fd) ==> AfterSendInLoop(v, s.w.conns[fd].out, answer).kernel == DEFAULT_EVENTS
    ensures Sound(v, s.(w := Updated(s.w, fd, AfterSendInLoop(v, s.w.conns[fd].out, answer))))
  {
    hide Valid, AfterSendInLoop;
    FinishedTable(v, s);
    UpdatedFinished(s, fd, AfterSendInLoop(v, s.w.conns[fd].out, answer));
    UpdatedValid(v, Finished(s), fd, SendInLoop(answer));
  }

  lemma HalfSound(v: Variant, s: Split, h: Half)
    requires Sound(v, s) && !EntersLate(s, h)
    ensures Sound(v, NextHalf(v, s, h))
  {
    match h
    case Accepting(fd) => AcceptingSound(v, s, fd);
    case Reported(e) =>
      if s.late.Idle? {
        if Closes(e) && e.fd in s.w.conns { ClosingSound(v, s, e); } else { OtherSound(v, s, e); }
      }
    case _ => QuietSound(v, s, h);
  }

  lemma AcceptingSound(v: Variant, s: Split, fd: int)
    requires Sound(v, s)
    ensures Sound(v, NextHalf(v, s, Accepting(fd)))
  {
    hide MaskInv, Removed;
    if s.coming.Nobody? && fd !in s.w.open {
      RegisteredValid(v, s.w, fd);
      assert Finished(NextHalf(v, s, Accepting(fd))) == Registered(s.w, fd);
    }
  }

  lemma QuietSound(v: Variant, s: Split, h: Half)
    requires Sound(v, s) && !EntersLate(s, h) && (h.Entering? || h.Watching? || h.Continue?)
    ensures Sound(v, NextHalf(v, s, h))
  {
    hide Valid;
    FinishedTable(v, s);
    if h.Continue? && s.late.Dropping? {
      DroppedFinished(s, s.late.fd);
      var s' := NextHalf(v, s, h);
      SameFinished(s', s.(w := s'.w));
    }
  }

  /** A connection was, or is about to be, destroyed that nothing reported as closing. */
  predicate Hurt(s: Split) {
    || s.w.reentered > 0
    || (!s.late.Idle? && s.late.fd in s.w.conns && !s.w.conns[s.late.fd].leave)
  }

  lemma HalfHurt(v: Variant, s: Split, h: Half)
    requires Hurt(s) || EntersLate(s, h)
    ensures Hurt(NextHalf(v, s, h))
  {
    hide AfterSendInLoop;
  }

  lemma {:induction false} SplitStates(v: Variant, halves: seq<Half>)
    ensures if NeverEntersLate(v, halves) then Sound(v, RunSplit(v, halves)) else Hurt(RunSplit(v, halves))
  {
    if |halves| == 0 {
      assert RunSplit(v, halves).w == EMPTY;
    } else {
      var front, last := halves[..|halves| - 1], halves[|halves| - 1];
      SplitStates(v, front);
      if NeverEntersLate(v, halves) {
        HalfSound(v, RunSplit(v, front), last);
      } else {
        HalfHurt(v, RunSplit(v, front), last);
      }
    }
  }

  /** Over every run, whenever both threads are through: the server is coherent, and has closed
      exactly the connections reported as closing, if and only if no connection was entered into
      the table in the middle of the teardown of its descriptor. To be accepted there is harmless. */
  lemma TeardownSafeIff(v: Variant, halves: seq<Half>)
    requires RunSplit(v, halves).late.Idle? && RunSplit(v, halves).coming.Nobody?
    ensures
      var s := RunSplit(v, halves);
      Valid(v, s.w) && s.w.closed == s.reported <==> NeverEntersLate(v, halves)
  {
    SplitStates(v, halves);
  }

  lemma SplitMore(v: Variant, halves: seq<Half>, h: Half)
    ensures RunSplit(v, halves + [h]) == NextHalf(v, RunSplit(v, halves), h)
  {
    assert (halves + [h])[..|halves|] == halves;
  }

  /** Descriptor 5 is accepted anew and entered before the teardown of its last connection is
      over: the new connection is destroyed although nothing was reported for it. */
  lemma ReuseKillsConnection(v: Variant) returns (halves: seq<Half>)
    ensures halves == [Accepting(5), Entering, Watching, Reported(Event(5, CLOSABLE, 0)),
                       Accepting(5), Entering, Watching, Continue, Continue]
    ensures
      var s := RunSplit(v, halves);
      && s.late.Idle? && s.coming.Nobody? && s.reported == [5] && s.w.closed == [5, 5]
      && s.w.conns == map[] && s.w.reentered == 1
  {
    hide NextHalf, RunSplit;
    var hangUp := Reported(Event(5, CLOSABLE, 0));
    var h3 := [] + [Accepting(5)] + [Entering] + [Watching];
    SplitMore(v, [], Accepting(5));
    SplitMore(v, [] + [Accepting(5)], Entering);
    SplitMore(v, [] + [Accepting(5)] + [Entering], Watching);
    SplitMore(v, h3, hangUp);
    var h7 := h3 + [hangUp] + [Accepting(5)] + [Entering] + [Watching];
    SplitMore(v, h3 + [hangUp], Accepting(5));
    SplitMore(v, h3 + [hangUp] + [Accepting(5)], Entering);
    SplitMore(v, h3 + [hangUp] + [Accepting(5)] + [Entering], Watching);
    SplitMore(v, h7, Continue);
    SplitMore(v, h7 + [Continue], Continue);
    halves := h7 + [Continue] + [Continue];
    SplitNone(v);
    UninterruptedIsRegistered(v, QUIET, 5);
    var one := QUIET.(w := Registered(EMPTY, 5));
    var two := NextHalf(v, one, hangUp);
    HangUpState(v, one);
    UninterruptedIsRegistered(v, two, 5);
    LateStates(v, two.(w := Registered(two.w, 5)));
  }

  lemma SplitNone(v: Variant)
    ensures RunSplit(v, []) == QUIET
  {
  }

  lemma HangUpState(v: Variant, s: Split)
    requires s == QUIET.(w := Registered(EMPTY, 5))
    ensures
      var s' := NextHalf(v, s, Reported(Event(5, CLOSABLE, 0)));
      && s'.late == Dropping(5) && s'.coming.Nobody? && s'.reported == s'.w.closed == [5]
      && s'.w.conns == map[] && s'.w.open == {} && s'.w.reentered == 0
  {
    assert Closes(Event(5, CLOSABLE, 0));
    assert s.w.conns == map[5 := NEW_CONN] && s.w.open == {5};
  }

  lemma LateStates(v: Variant, s: Split)
    requires s.late == Dropping(5) && s.w.conns == map[5 := NEW_CONN]
    ensures
      var s' := NextHalf(v, NextHalf(v, s, Continue), Continue);
      && s'.late.Idle? && s'.coming == s.coming && s'.reported == s.reported
      && s'.w.closed == s.w.closed + [5] && s'.w.conns == map[] && s'.w.reentered == s.w.reentered + 1
  {
  }

  // ----- the implementation -----

  class TcpServer {
    const variant: Variant
    var conns: map<int, Conn>
    var interest: map<int, Mask>
    var open: set<int>
    var admitted: seq<int>
    var closed: seq<int>
    var total: int
    var reentered: nat
    var held: bool                  // mx_ is locked by this thread
    var balanced: seq<seq<int>>     // batches handed to the balancer

    ghost function View(): World
      reads this
    {
      World(conns, interest, open, admitted, closed, total, reentered)
    }

    constructor (variant: Variant)
      ensures View() == EMPTY && !held && balanced == [] && this.variant == variant
    {
      this.variant := variant;
      conns, interest, open, admitted, closed := map[], map[], {}, [], [];
      total, reentered, held, balanced := 0, 0, false, [];
    }

    /** A `std::mutex` must not be locked by the thread that holds it. */
    method Lock()
      requires !held
      modifies this`held
      ensures held
    {
      held := true;
    }

    method Unlock()
      requires held
      modifies this`held
      ensures !held
    {
      held := false;
    }

    /** `accept` has returned `fd`: the server is told first, then the kernel. */
    method DemultiplexRegister(fd: int)
      requires !held && fd !in open && fd !in conns
      modifies this
      ensures View() == Registered(old(View()), fd)
      ensures !held && balanced == old(balanced)
    {
      open, admitted := open + {fd}, admitted + [fd];
      var _ := UpdateForRegister(fd);
      interest := interest[fd := DEFAULT_EVENTS];
    }

    /** Were `fd` already in the table, `emplace` would destroy the new connection under the
        lock, and its channel would call back to remove the old one and wait for the lock its
        own thread holds: `ok` is false when the call never returns. */
    method UpdateForRegister(fd: int) returns (ok: bool)
      requires !held
      modifies this
      ensures ok == (fd !in old(conns)) == !held && balanced == old(balanced)
      ensures ok ==> View() == old(View()).(conns := old(conns)[fd := NEW_CONN], total := old(total) + 1)
      ensures !ok ==> View() == Destroyed(old(View()), fd, false).(total := old(total) - 1)
    {
      Lock();
      ok := fd !in conns;
      if ok {
        conns := conns[fd := NEW_CONN];
        total := total + 1;
        Unlock();
      } else {
        open, closed, interest := open - {fd}, closed + [fd], Dropped(interest, fd);
        reentered, total := reentered + 1, total - 1;
      }
    }

    /** `~TcpConnection` closes the socket, then `~Channel` leaves unless it already has. The
        connection is out of the table by now, and the caller may hold the lock. */
    method Destroy(fd: int, conn: Conn)
      requires fd !in conns
      modifies this
      ensures View() == Destroyed(old(View()), fd, conn.leave)
      ensures held == old(held) && balanced == old(balanced)
      decreases |conns|, 3
    {
      hide Removed;
      open, closed := open - {fd}, closed + [fd];
      interest := Dropped(interest, fd);
      if !conn.leave {
        reentered := reentered + 1;
        Leave(fd);
      }
    }

    /** Channel::leave, for the channel of the connection on `fd`. */
    method Leave(fd: int)
      requires fd in conns ==> !held
      modifies this
      ensures held == old(held) && balanced == old(balanced)
      ensures View() == Left(old(View()), fd)
      decreases |conns|, 2
    {
      if fd in conns {
        conns := conns[fd := conns[fd].(leave := true)];
        assert conns.Keys == old(conns).Keys;
        assert |conns| == |conns.Keys| == |old(conns).Keys|;
      }
      DemultiplexRemove(fd);
    }

    /** Tells the server, which removes the connection, and only then the kernel. */
    method DemultiplexRemove(fd: int)
      requires fd in conns ==> !held
      modifies this
      ensures held == old(held) && balanced == old(balanced)
      ensures View() == Removed(old(View()), fd).(interest := Dropped(old(interest), fd))
      decreases |conns|, 1
    {
      RemoveConnection(fd);
      interest := Dropped(interest, fd);
    }

    method RemoveConnection(fd: int)
      requires fd in conns ==> !held
      modifies this
      ensures held == old(held) && balanced == old(balanced)
      ensures View() == Removed(old(View()), fd)
      decreases |conns|, 0
    {
      if fd !in conns {
        return;
      }
      total := total - 1;
      Lock();
      var conn := conns[fd];
      MapSizes(conns, fd, conn);
      conns := conns - {fd};
      Destroy(fd, conn);
      Unlock();
    }

    /** TcpConnection::disconnect; the connection does not survive its own call. */
    method Disconnect(fd: int)
      requires fd in conns && !held
      modifies this
      ensures !held && balanced == old(balanced)
      ensures View() == Left(old(View()), fd)
    {
      conns := conns[fd := conns[fd].(out := conns[fd].out.(connected := false))];
      Leave(fd);
    }

    method UpdateForWait(events: seq<Event>)
      requires !held
      modifies this
      ensures View() == HandledAll(variant, old(View()), events) && !held
      ensures balanced == old(balanced) + [Forwarded(variant, old(View()), events)]
    {
      var sockes := [];
      for i := 0 to |events|
        invariant !held && balanced == old(balanced)
        invariant View() == HandledAll(variant, old(View()), events[..i])
        invariant sockes == Forwarded(variant, old(View()), events[..i])
      {
        var e := events[i];
        assert events[..i + 1][..i] == events[..i];
        if e.fd !in conns {
          continue;
        }
        if Has(e.mask, READABLE) && !Has(e.mask, CLOSABLE) {
          sockes := sockes + [e.fd];
        } else if Has(e.mask, WRITABLE) {
          var out := AfterSendInLoop(variant, conns[e.fd].out, e.answer);
          conns := conns[e.fd := conns[e.fd].(out := out)];
          interest := interest[e.fd := out.kernel];
        } else if Has(e.mask, CLOSABLE) {
          Disconnect(e.fd);
          RemoveConnection(e.fd);
        }
      }
      assert events[..|events|] == events;
      balanced := balanced + [sockes];
    }
  }
}
