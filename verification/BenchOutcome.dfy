/** What the benchmark client's handlers do from every valid state, in terms of slots,
    registrations and counters, and what a whole run counts. */
module BenchOutcome {
  import opened Basics
  import opened BenchModel
  import opened BenchInvariant

  const READING := Mask(true, false)
  const WRITING := Mask(false, true)

  function Min(a: nat, b: nat): nat { if a < b then a else b }

  // ----- clients made anew -----

  /** Slot `i`'s client is gone. If the environment gives the lowest free descriptor and a
      request, a new client waits in the slot of that descriptor to write it. */
  ghost predicate Replaces(g: Config, w: World, w': World, i: nat, a: Creation)
    requires g.Sane() && |w.clients| == g.slots && i < g.slots
  {
    var fd := w.clients[i].fd;
    var clients, open := w.clients[i := w.clients[i].(fd := -1)], w.open - {fd};
    && (w'.done, w'.running, w'.exited, w'.fails, w'.badOps) == (w.done, w.running, w.exited, w.fails, w.badOps)
    && if a.Created? && a.len > 0 && LowestFree(open, a.fd) then
         && w'.clients == clients[a.fd % g.slots := Client(a.fd, WRITING, 0, 0, a.len)]
         && w'.epoll == (w.epoll - {fd})[a.fd := WRITING]
         && w'.open == open + {a.fd} && w'.live == w.live
       else
         w'.clients == clients && w'.epoll == w.epoll - {fd} && w'.open == open && w'.live == w.live - 1
  }

  lemma ReplacedOutcome(g: Config, w: World, i: nat, a: Creation)
    requires g.Sane() && Tidy(g, w) && IsLive(g, w, i)
    ensures Replaces(g, w, Replaced(g, w, i, a), i, a)
  {
    hide Tidy, IsLive, Slotted, ClientCreated, LowestFree;
    LiveFacts(g, w, i);
    CloseTidy(g, w, i);
    var m := ConnectionClosed(w, i);
    NoStray(g, m);
    CreateIs(g, m, a);
  }

  lemma NoStray(g: Config, w: World)
    requires g.Sane() && Tidy(g, w)
    ensures w.epoll.Keys <= w.open && w.badOps == 0
  {
    hide Slotted, Slot;
  }

  /** Slot `i`'s client waits to write its request, or a new one, from the start. */
  ghost predicate Resets(w: World, w': World, i: nat, len: Option<nat>)
    requires i < |w.clients|
  {
    var c := w.clients[i];
    w' == w.(clients := w.clients[i := Afresh(c, len)], epoll := w.epoll[c.fd := WRITING])
  }

  function Afresh(c: Client, len: Option<nat>): Client {
    Client(c.fd, WRITING, 0, 0, if len.Some? && len.value > 0 then len.value else c.sendLen)
  }

  lemma ResetOutcome(g: Config, w: World, i: nat, len: Option<nat>)
    requires g.Sane() && Tidy(g, w) && IsLive(g, w, i)
    ensures Resets(w, ClientReset(w, i, len), i, len)
  {
    hide Tidy, IsLive;
    LiveFacts(g, w, i);
    SwitchTo(w, i, Readable, Writeable);
  }

  // ----- a read event -----

  /** After a complete response: one more done, up to the number needed; at the number the loop
      stops, and before it the client goes on. */
  ghost predicate Completes(g: Config, w: World, w': World, i: nat, a: Answers)
    requires g.Sane() && |w.clients| == g.slots && i < g.slots
  {
    var u := w.(done := Min(g.need, w.done + 1));
    if u.done == g.need then w' == u.(running := false)
    else if g.reuse then Resets(u, w', i, a.len)
    else Replaces(g, u, w', i, a.creation)
  }

  /** The client after `k` more bytes have come in. */
  function WithBytes(w: World, i: nat, k: nat): World
    requires i < |w.clients|
  {
    w.(clients := w.clients[i := w.clients[i].(recvLen := w.clients[i].recvLen + k)])
  }

  /** How many of the bytes offered fit behind those received, with one to spare. */
  function Incoming(c: Client, n: nat): nat
    requires c.recvLen <= 4096
  {
    if n == 0 then 1 else Min(n, 4097 - c.recvLen)
  }

  ghost predicate Receives(g: Config, w: World, w': World, i: nat, a: Answers)
    requires g.Sane() && |w.clients| == g.slots && i < g.slots && w.clients[i].recvLen <= 4096
  {
    match a.io
    case WouldBlock => w' == w
    case Broken => Replaces(g, w, w', i, a.creation)
    case Bytes(n) =>
      var u := WithBytes(w, i, Incoming(w.clients[i], n));
      if u.clients[i].recvLen == 4097 then w' == u.(exited := true)
      else if a.decode < 0 then Replaces(g, u, w', i, a.creation)
      else if a.decode == 1 then w' == u
      else Completes(g, u, w', i, a)
  }

  lemma RecvOutcome(g: Config, w: World, i: nat, a: Answers)
    requires g.Sane() && Tidy(g, w) && !w.exited && IsLive(g, w, i) && w.clients[i].recvLen <= 4096
    ensures Receives(g, w, AfterRecv(g, w, i, a), i, a)
  {
    hide Tidy, IsLive, Replaced, Replaces, Completes, Decoded;
    match a.io
    case WouldBlock =>
    case Broken => ReplacedOutcome(g, w, i, a.creation);
    case Bytes(n) =>
      var k := Incoming(w.clients[i], n);
      assert k == Clamp(n, RECV_BUF_SIZE - w.clients[i].recvLen);
      if w.clients[i].recvLen + k <= 4096 {
        ReceivedTidy(g, w, i, w.clients[i].recvLen + k);
        DecodedOutcome(g, WithBytes(w, i, k), i, a);
      }
  }

  lemma DecodedOutcome(g: Config, w: World, i: nat, a: Answers)
    requires g.Sane() && Tidy(g, w) && IsLive(g, w, i)
    ensures
      var w' := Decoded(g, w, i, a);
      if a.decode < 0 then Replaces(g, w, w', i, a.creation)
      else if a.decode == 1 then w' == w
      else Completes(g, w, w', i, a)
  {
    hide Tidy, IsLive, Replaced, ClientReset, Replaces, Resets;
    if a.decode < 0 {
      ReplacedOutcome(g, w, i, a.creation);
    } else if a.decode != 1 {
      var u := w.(done := Min(g.need, w.done + 1));
      CountersTidy(g, w, u.done, w.fails, w.running, i);
      ResetOutcome(g, u, i, a.len);
      ReplacedOutcome(g, u, i, a.creation);
    }
  }

  // ----- a write event, an error, a timeout -----

  ghost predicate Sends(g: Config, w: World, w': World, i: nat, a: Answers)
    requires g.Sane() && |w.clients| == g.slots && i < g.slots && w.clients[i].sentLen <= w.clients[i].sendLen
  {
    match a.io
    case WouldBlock => w' == w
    case Broken => Replaces(g, w, w', i, a.creation)
    case Bytes(n) =>
      var c := w.clients[i];
      var sent := c.sentLen + Min(if n == 0 then 1 else n, c.sendLen - c.sentLen);
      var c' := c.(sentLen := sent, mask := if sent == c.sendLen then READING else WRITING);
      w' == w.(clients := w.clients[i := c'], epoll := w.epoll[c.fd := c'.mask])
  }

  lemma SendOutcome(g: Config, w: World, i: nat, a: Answers)
    requires g.Sane() && Tidy(g, w) && IsLive(g, w, i) && w.clients[i].mask.write
    requires w.clients[i].sentLen <= w.clients[i].sendLen
    ensures Sends(g, w, AfterSend(g, w, i, a), i, a)
  {
    hide Tidy, IsLive, Replaced, Replaces, EventAdded, EventDeleted;
    LiveFacts(g, w, i);
    match a.io
    case WouldBlock =>
    case Broken => ReplacedOutcome(g, w, i, a.creation);
    case Bytes(n) =>
      var c := w.clients[i];
      assert c.sentLen < c.sendLen;
      var sent := c.sentLen + Min(if n == 0 then 1 else n, c.sendLen - c.sentLen);
      assert sent == c.sentLen + Clamp(n, c.sendLen - c.sentLen);
      SwitchTo(w.(clients := w.clients[i := c.(sentLen := sent)]), i, Writeable, Readable);
      assert w.clients[i := c.(sentLen := sent)][i := c.(sentLen := sent, mask := READING)]
          == w.clients[i := c.(sentLen := sent, mask := READING)];
      assert w.epoll[c.fd := WRITING] == w.epoll;
  }

  /** The thousand-and-first error ends the process; before, the client is replaced. */
  ghost predicate Errs(g: Config, w: World, w': World, i: nat, a: Answers)
    requires g.Sane() && |w.clients| == g.slots && i < g.slots
  {
    var u := w.(fails := w.fails + 1);
    if u.fails > 1000 then w' == u.(exited := true) else Replaces(g, u, w', i, a.creation)
  }

  lemma ErrorOutcome(g: Config, w: World, i: nat, a: Answers)
    requires g.Sane() && Tidy(g, w) && IsLive(g, w, i)
    ensures Errs(g, w, HandledError(g, w, i, a), i, a)
  {
    hide Tidy, IsLive, Replaced, Replaces;
    CountersTidy(g, w, w.done, w.fails + 1, w.running, i);
    ReplacedOutcome(g, w.(fails := w.fails + 1), i, a.creation);
  }

  /** What one report does: exactly one of these, or nothing when no event is reported. */
  ghost predicate ReportDone(g: Config, w: World, w': World, r: Report)
    requires g.Sane() && |w.clients| == g.slots
  {
    var i := r.fd % g.slots;
    if w.exited then w' == w
    else if r.error then Errs(g, w, w', i, r.answers)
    else if r.events.read then w.clients[i].recvLen <= 4096 && Receives(g, w, w', i, r.answers)
    else if r.events.write then w.clients[i].sentLen <= w.clients[i].sendLen && Sends(g, w, w', i, r.answers)
    else w' == w
  }

  lemma HandledOutcome(g: Config, w: World, r: Report)
    requires g.Sane() && Tidy(g, w) && Reportable(w, r)
    ensures ReportDone(g, w, Handled(g, w, r), r)
  {
    hide Tidy, IsLive, LiveClient, AfterRecv, AfterSend, HandledError, Receives, Sends, Errs;
    var i := Slot(g, r.fd);
    RegisteredIsLive(g, w, r.fd);
    LiveFacts(g, w, i);
    if !w.exited {
      if r.error {
        ErrorOutcome(g, w, i, r.answers);
      } else if r.events.Has(Readable) {
        assert !r.events.Has(Writeable);
        RecvOutcome(g, w, i, r.answers);
      } else if r.events.Has(Writeable) {
        SendOutcome(g, w, i, r.answers);
      }
    }
  }

  /** For every batch from every valid state: each report does what it should to the state that
      the ones before it have left. */
  lemma BatchOutcome(g: Config, w: World, reports: seq<Report>, k: nat)
    requires g.Sane() && Tidy(g, w) && Batch(w, reports) && k < |reports|
    ensures ReportDone(g, HandledAll(g, w, reports[..k]), HandledAll(g, w, reports[..k + 1]), reports[k])
    ensures HandledAll(g, w, []) == w
  {
    hide Tidy, Batch, Handled, ReportDone;
    assert reports[..k + 1][..k] == reports[..k];
    StaysReportable(g, w, reports, k);
    var m := HandledAll(g, w, reports[..k]);
    if m.exited {
      ExitedStays(g, m, reports[k]);
    } else {
      HandledOutcome(g, m, reports[k]);
    }
  }

  lemma ExitedStays(g: Config, w: World, r: Report)
    requires g.Sane() && |w.clients| == g.slots && w.exited
    ensures ReportDone(g, w, Handled(g, w, r), r)
  {
  }

  /** The periodic check resets exactly the clients in the slots that have timed out. */
  lemma {:induction false} TimeoutsOutcome(g: Config, w: World, expired: set<nat>, len: Option<nat>, n: nat)
    requires g.Sane() && Tidy(g, w) && n <= g.slots
    ensures
      var w' := TimeoutsCleared(w, expired, len, n);
      && w' == w.(clients := w'.clients, epoll := w'.epoll)
      && forall j :: 0 <= j < g.slots ==>
           w'.clients[j] == if j < n && j in expired && w.clients[j].fd != -1 then Afresh(w.clients[j], len) else w.clients[j]
  {
    hide Tidy, LiveClient, Slot, ClientReset;
    if n > 0 {
      TimeoutsOutcome(g, w, expired, len, n - 1);
      TimeoutsTidy(g, w, expired, len, n - 1);
      var m := TimeoutsCleared(w, expired, len, n - 1);
      if m.clients[n - 1].fd != -1 {
        OccupiedIsLive(g, m, n - 1);
        LiveFacts(g, m, n - 1);
        ResetOutcome(g, m, n - 1, len);
      }
    }
  }

  /** Do the first `n` answers make a client each, on the lowest free descriptors? */
  predicate AllMade(open: set<int>, answers: seq<Creation>, n: nat)
    decreases |answers|
  {
    n == 0 || (|answers| > 0 && answers[0].Created? && answers[0].len > 0 && LowestFree(open, answers[0].fd)
      && AllMade(open + {answers[0].fd}, answers[1..], n - 1))
  }

  /** Refilling ends the process exactly when it fails to make one of the clients missing. */
  lemma {:induction false} RefillExitsIff(g: Config, w: World, answers: seq<Creation>)
    requires g.Sane() && Tidy(g, w) && !w.exited
    ensures 0 <= w.live <= g.slots
    ensures AllCreated(g, w, answers).exited <==> !AllMade(w.open, answers, g.slots - w.live)
    decreases |answers|
  {
    hide Tidy, Slot, ClientCreated, LowestFree;
    AtMostAll(g, w);
    if w.live < g.slots && |answers| > 0 {
      CreateTidy(g, w, answers[0]);
      NoStray(g, w);
      CreateIs(g, w, answers[0]);
      var m := ClientCreated(g, w, answers[0]);
      if m.live > w.live {
        RefillExitsIff(g, m, answers[1..]);
      }
    }
  }

  // ----- what a run counts -----

  /** Does the report bring a complete response? */
  predicate IsComplete(g: Config, w: World, r: Report)
    requires g.Sane() && |w.clients| == g.slots
  {
    var c := w.clients[r.fd % g.slots];
    && !w.exited && !r.error && r.events.read && r.answers.io.Bytes?
    && c.recvLen <= 4096 && c.recvLen + Incoming(c, r.answers.io.n) <= 4096
    && r.answers.decode >= 0 && r.answers.decode != 1
  }

  function CompleteIn(g: Config, w: World, reports: seq<Report>): nat
    requires g.Sane() && |w.clients| == g.slots
  {
    if |reports| == 0 then 0
    else
      var front, r := reports[..|reports| - 1], reports[|reports| - 1];
      CompleteIn(g, w, front) + if IsComplete(g, HandledAll(g, w, front), r) then 1 else 0
  }

  /** The latencies of the complete responses that still count. */
  function LatenciesIn(g: Config, w: World, reports: seq<Report>): seq<int>
    requires g.Sane() && |w.clients| == g.slots
  {
    if |reports| == 0 then []
    else
      var front, r := reports[..|reports| - 1], reports[|reports| - 1];
      var m := HandledAll(g, w, front);
      LatenciesIn(g, w, front) + if IsComplete(g, m, r) && m.done < g.need then [r.elapsed] else []
  }

  /** Everything counted by one report of a batch. */
  lemma StepCounts(g: Config, w: World, reports: seq<Report>, k: nat)
    requires g.Sane() && Tidy(g, w) && Batch(w, reports) && k < |reports|
    ensures
      var m, m' := HandledAll(g, w, reports[..k]), HandledAll(g, w, reports[..k + 1]);
      var counts := IsComplete(g, m, reports[k]) && m.done < g.need;
      && m'.done == m.done + (if counts then 1 else 0)
      && LatenciesIn(g, w, reports[..k + 1]) == LatenciesIn(g, w, reports[..k]) + if counts then [reports[k].elapsed] else []
  {
    hide Tidy, Handled, ReportDone, IsComplete;
    assert Batch(w, reports[..k]);
    BatchCounts(g, w, reports[..k]);
    BatchOutcome(g, w, reports, k);
    assert reports[..k + 1][..k] == reports[..k];
    ReportCounts(g, HandledAll(g, w, reports[..k]), HandledAll(g, w, reports[..k + 1]), reports[k]);
  }

  ghost function CompleteOver(g: Config, first: seq<Creation>, rounds: seq<Round>): nat
    requires g.Sane()
  {
    if |rounds| == 0 then 0
    else
      var front, last := rounds[..|rounds| - 1], rounds[|rounds| - 1];
      var w := Run(g, first, front);
      CompleteOver(g, first, front) +
      if !w.exited && last.Wait? && BenchInvariant.Batch(w, last.reports) then CompleteIn(g, w, last.reports) else 0
  }

  lemma ReplacesKeeps(g: Config, w: World, w': World, i: nat, a: Creation)
    requires g.Sane() && |w.clients| == g.slots && i < g.slots && Replaces(g, w, w', i, a)
    ensures w'.done == w.done
  {
  }

  lemma ReportCounts(g: Config, w: World, w': World, r: Report)
    requires g.Sane() && |w.clients| == g.slots && ReportDone(g, w, w', r) && w.done <= g.need
    ensures w'.done == Min(g.need, w.done + if IsComplete(g, w, r) then 1 else 0)
    ensures w'.running <==> w.running && !(IsComplete(g, w, r) && w'.done == g.need)
  {
  }

  lemma {:induction false} BatchCounts(g: Config, w: World, reports: seq<Report>)
    requires g.Sane() && Tidy(g, w) && Batch(w, reports)
    ensures HandledAll(g, w, reports).done == Min(g.need, w.done + CompleteIn(g, w, reports))
    ensures HandledAll(g, w, reports).running <==>
      w.running && !(CompleteIn(g, w, reports) > 0 && w.done + CompleteIn(g, w, reports) >= g.need)
  {
    hide Tidy, Handled, ReportDone, IsComplete;
    if |reports| > 0 {
      var n := |reports| - 1;
      assert Batch(w, reports[..n]);
      BatchCounts(g, w, reports[..n]);
      BatchOutcome(g, w, reports, n);
      assert reports[..n + 1] == reports;
      ReportCounts(g, HandledAll(g, w, reports[..n]), HandledAll(g, w, reports), reports[n]);
    }
  }

  lemma {:induction false} RefillCounts(g: Config, w: World, answers: seq<Creation>)
    requires g.Sane() && |w.clients| == g.slots
    ensures AllCreated(g, w, answers).done == w.done && AllCreated(g, w, answers).running == w.running
    decreases |answers|
  {
    hide Slot;
    if !w.exited && w.live < g.slots && |answers| > 0 {
      var m := ClientCreated(g, w, answers[0]);
      assert m.done == w.done && m.running == w.running;
      if m.live > w.live {
        RefillCounts(g, m, answers[1..]);
      }
    }
  }

  /** Over every run, `doneRequests` is the number of complete responses, up to the number needed,
      and the loop is told to stop by the response that reaches this number (or the first one,
      should none be needed). */
  lemma {:induction false} DoneIsComplete(g: Config, first: seq<Creation>, rounds: seq<Round>)
    requires g.Sane()
    ensures Run(g, first, rounds).done == Min(g.need, CompleteOver(g, first, rounds))
    ensures !Run(g, first, rounds).running <==>
      CompleteOver(g, first, rounds) > 0 && CompleteOver(g, first, rounds) >= g.need
  {
    hide Tidy, AllCreated, TimeoutsCleared, HandledAll, CompleteIn;
    if |rounds| == 0 {
      RefillCounts(g, Start(g), first);
    } else {
      var front, last := rounds[..|rounds| - 1], rounds[|rounds| - 1];
      var w := Run(g, first, front);
      DoneIsComplete(g, first, front);
      AlwaysValid(g, first, front);
      if !w.exited {
        match last
        case Wait(reports) => if BenchInvariant.Batch(w, reports) { BatchCounts(g, w, reports); }
        case Check(expired, len, answers) =>
          TimeoutsOutcome(g, w, expired, len, g.slots);
          RefillCounts(g, TimeoutsCleared(w, expired, len, g.slots), answers);
      }
    }
  }
}
