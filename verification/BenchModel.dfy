/** The benchmark client (benchmark/benchmark.cpp): clients live in slots chosen by their
    descriptor modulo the number of clients, each with an interest mask that has to mirror
    its epoll registration, and handlers close, re-create and reset them.

    Descriptors are allocated lowest-first (POSIX.1-2017 System Interfaces, section 2.14), and
    those below the first client's stay open. */
module BenchModel {
  import opened Basics

  const MAX_RECV_BUF_LEN: nat := 4096
  const RECV_BUF_SIZE: nat := MAX_RECV_BUF_LEN + 1
  const MAX_FAIL_COUNT: nat := 1000

  datatype Event = Readable | Writeable

  /** ENONE is neither bit. */
  datatype Mask = Mask(read: bool, write: bool)
  {
    predicate Has(e: Event) { if e.Readable? then read else write }

    function Set(e: Event, on: bool): Mask {
      if e.Readable? then this.(read := on) else this.(write := on)
    }
  }

  const ENONE := Mask(false, false)

  datatype Client = Client(fd: int, mask: Mask, recvLen: nat, sentLen: nat, sendLen: nat)

  const VACANT := Client(-1, ENONE, 0, 0, 0)

  /** `slots` is needClientNum, `need` needRequestNum; `reuse` stands for keep-alive or UDP,
      and `base` is the lowest descriptor that is free when the first client is created. */
  datatype Config = Config(slots: nat, need: nat, reuse: bool, base: nat)
  {
    predicate Sane() { slots > 0 && base > 0 }
  }

  /** `fd % needClientNum`. */
  function Slot(g: Config, fd: int): (i: nat)
    requires g.Sane()
    ensures i < g.slots
  {
    fd % g.slots
  }

  datatype World = World(
    clients: seq<Client>,
    epoll: map<int, Mask>,     // what epoll watches
    open: set<int>,            // open descriptors
    live: int,                 // liveClientNum
    done: nat,                 // doneRequests
    running: bool,             // el->stop, which is 1 while running
    exited: bool,              // the process has called exit
    fails: nat,                // epoll_fail
    badOps: nat)               // epoll operations that failed for being the wrong kind

  function Below(n: nat): (s: set<int>)
    ensures forall k :: k in s <==> 0 <= k < n
    ensures |s| == n
  {
    if n == 0 then {} else Below(n - 1) + {n - 1}
  }

  function Start(g: Config): World {
    World(seq(g.slots, _ => VACANT), map[], Below(g.base), 0, 0, true, false, 0, 0)
  }

  // ----- what the environment answers -----

  /** `socket` and what follows: no client, or one on `fd` with a request of `len` bytes. */
  datatype Creation = Failed | Created(fd: int, len: nat)

  /** A read or a write: it would block, the peer is gone, or `n` bytes. */
  datatype Transfer = WouldBlock | Broken | Bytes(n: nat)

  /** Answers for one call of a handler; `len` is set when the request is re-encoded. */
  datatype Answers = Answers(io: Transfer, decode: int, creation: Creation, len: Option<nat>)

  /** One report of `epoll_wait`, with the latency measured should it complete a request. */
  datatype Report = Report(fd: int, error: bool, events: Mask, answers: Answers, elapsed: int)

  predicate LowestFree(open: set<int>, fd: int) {
    fd >= 0 && fd !in open && forall k :: 0 <= k < fd ==> k in open
  }

  /** At least one byte when there is room for any, at most what fits. */
  function Clamp(n: nat, room: nat): (r: nat)
    ensures r <= room && (room > 0 ==> r > 0)
    ensures 1 <= n <= room ==> r == n
  {
    if n > room then room else if n > 0 then n else if room > 0 then 1 else 0
  }

  // ----- the handlers -----

  function EventAdded(w: World, i: nat, e: Event): (w': World)
    requires i < |w.clients|
    ensures |w'.clients| == |w.clients|
  {
    var c := w.clients[i];
    var c' := c.(mask := c.mask.Set(e, true));
    var right := if c.mask == ENONE then c.fd !in w.epoll else c.fd in w.epoll;
    w.(clients := w.clients[i := c'],
       epoll := if right then w.epoll[c.fd := c'.mask] else w.epoll,
       badOps := w.badOps + if right then 0 else 1)
  }

  function EventDeleted(w: World, i: nat, e: Event): (w': World)
    requires i < |w.clients|
    ensures |w'.clients| == |w.clients|
  {
    var c := w.clients[i];
    var c' := c.(mask := c.mask.Set(e, false));
    var right := c.fd in w.epoll;
    w.(clients := w.clients[i := c'],
       epoll := if !right then w.epoll else if c'.mask == ENONE then w.epoll - {c.fd} else w.epoll[c.fd := c'.mask],
       badOps := w.badOps + if right then 0 else 1)
  }

  function ConnectionClosed(w: World, i: nat): (w': World)
    requires i < |w.clients|
    ensures |w'.clients| == |w.clients|
  {
    var c := w.clients[i];
    w.(clients := w.clients[i := c.(fd := -1)], epoll := w.epoll - {c.fd}, open := w.open - {c.fd},
       live := w.live - 1, badOps := w.badOps + if c.fd in w.epoll then 0 else 1)
  }

  /** Whether the kernel can have answered so. */
  predicate Creates(w: World, a: Creation) { a.Created? && a.len > 0 && LowestFree(w.open, a.fd) }

  function ClientCreated(g: Config, w: World, a: Creation): (w': World)
    requires g.Sane() && |w.clients| == g.slots
    ensures |w'.clients| == g.slots
  {
    if !Creates(w, a) then w
    else
      var i := Slot(g, a.fd);
      var w' := EventAdded(w.(clients := w.clients[i := Client(a.fd, ENONE, 0, 0, a.len)]), i, Writeable);
      if w'.badOps > w.badOps then w' else w'.(open := w.open + {a.fd}, live := w.live + 1)
  }

  function ClientReset(w: World, i: nat, len: Option<nat>): (w': World)
    requires i < |w.clients|
    ensures |w'.clients| == |w.clients|
  {
    var w' := EventAdded(EventDeleted(w, i, Readable), i, Writeable);
    var c := w'.clients[i];
    w'.(clients := w'.clients[i := c.(recvLen := 0, sentLen := 0,
      sendLen := if len.Some? && len.value > 0 then len.value else c.sendLen)])
  }

  function Replaced(g: Config, w: World, i: nat, a: Creation): (w': World)
    requires g.Sane() && |w.clients| == g.slots && i < g.slots
    ensures |w'.clients| == g.slots
  {
    ClientCreated(g, ConnectionClosed(w, i), a)
  }

  function AfterDone(g: Config, w: World, i: nat, a: Answers): (w': World)
    requires g.Sane() && |w.clients| == g.slots && i < g.slots
    ensures |w'.clients| == g.slots
  {
    if w.done == g.need then w.(running := false)
    else if g.reuse then ClientReset(w, i, a.len)
    else Replaced(g, w, i, a.creation)
  }

  function AfterRecv(g: Config, w: World, i: nat, a: Answers): (w': World)
    requires g.Sane() && |w.clients| == g.slots && i < g.slots
    ensures |w'.clients| == g.slots
  {
    match a.io
    case WouldBlock => w
    case Broken => Replaced(g, w, i, a.creation)
    case Bytes(n) => Received(g, w, i, n, a)
  }

  /** `n` bytes have come in, as far as the buffer has room; one byte too many is fatal. */
  function Received(g: Config, w: World, i: nat, n: nat, a: Answers): (w': World)
    requires g.Sane() && |w.clients| == g.slots && i < g.slots
    ensures |w'.clients| == g.slots
  {
    var c := w.clients[i];
    var room := if c.recvLen > RECV_BUF_SIZE then 0 else RECV_BUF_SIZE - c.recvLen;
    var w' := w.(clients := w.clients[i := c.(recvLen := c.recvLen + Clamp(n, room))]);
    if w'.clients[i].recvLen > MAX_RECV_BUF_LEN then w'.(exited := true) else Decoded(g, w', i, a)
  }

  /** After a read: a bad response, an incomplete one, or one more request done. */
  function Decoded(g: Config, w: World, i: nat, a: Answers): (w': World)
    requires g.Sane() && |w.clients| == g.slots && i < g.slots
    ensures |w'.clients| == g.slots
  {
    if a.decode < 0 then Replaced(g, w, i, a.creation)
    else if a.decode == 1 then w
    else AfterDone(g, w.(done := if w.done < g.need then w.done + 1 else w.done), i, a)
  }

  function AfterSend(g: Config, w: World, i: nat, a: Answers): (w': World)
    requires g.Sane() && |w.clients| == g.slots && i < g.slots
    ensures |w'.clients| == g.slots
  {
    match a.io
    case WouldBlock => w
    case Broken => Replaced(g, w, i, a.creation)
    case Bytes(n) =>
      var c := w.clients[i];
      var left := if c.sentLen > c.sendLen then 0 else c.sendLen - c.sentLen;
      var w' := w.(clients := w.clients[i := c.(sentLen := c.sentLen + Clamp(n, left))]);
      if w'.clients[i].sentLen == c.sendLen then EventAdded(EventDeleted(w', i, Writeable), i, Readable)
      else w'
  }

  /** One report of the main loop. */
  function Handled(g: Config, w: World, r: Report): (w': World)
    requires g.Sane() && |w.clients| == g.slots
    ensures |w'.clients| == g.slots && (w.exited ==> w' == w)
  {
    if w.exited then w
    else if r.error then HandledError(g, w, Slot(g, r.fd), r.answers)
    else
      var w' := if r.events.Has(Readable) then AfterRecv(g, w, Slot(g, r.fd), r.answers) else w;
      if r.events.Has(Writeable) && !w'.exited then AfterSend(g, w', Slot(g, r.fd), r.answers) else w'
  }

  function HandledError(g: Config, w: World, i: nat, a: Answers): (w': World)
    requires g.Sane() && |w.clients| == g.slots && i < g.slots
    ensures |w'.clients| == g.slots
  {
    if w.fails + 1 > MAX_FAIL_COUNT then w.(fails := w.fails + 1, exited := true)
    else Replaced(g, w.(fails := w.fails + 1), i, a.creation)
  }

  function HandledAll(g: Config, w: World, reports: seq<Report>): (w': World)
    requires g.Sane() && |w.clients| == g.slots
    ensures |w'.clients| == g.slots
  {
    if |reports| == 0 then w
    else Handled(g, HandledAll(g, w, reports[..|reports| - 1]), reports[|reports| - 1])
  }

  /** createNeedClients: one failure ends the process, and so does the end of the list. */
  function AllCreated(g: Config, w: World, answers: seq<Creation>): (w': World)
    requires g.Sane() && |w.clients| == g.slots
    ensures |w'.clients| == g.slots
    decreases |answers|
  {
    if w.exited || w.live >= g.slots then w
    else if |answers| == 0 then w.(exited := true)
    else
      var w' := ClientCreated(g, w, answers[0]);
      if w'.live <= w.live then w'.(exited := true) else AllCreated(g, w', answers[1..])
  }

  /** clearTimeoutConnection over the first `n` slots; `expired` holds the slots timed out. */
  function TimeoutsCleared(w: World, expired: set<nat>, lens: Option<nat>, n: nat): (w': World)
    requires n <= |w.clients|
    ensures |w'.clients| == |w.clients|
  {
    if n == 0 then w
    else
      var w' := TimeoutsCleared(w, expired, lens, n - 1);
      if w'.clients[n - 1].fd > 0 && n - 1 in expired then ClientReset(w', n - 1, lens) else w'
  }
}
