/** The sessions of the proxy (src/proxy/proxy_server.cc): two tables that pair client and
    backend descriptors, and the traffic ledger that three components keep exact together.

    A session is set up under the lock in one step. Tearing it down is three steps in the code,
    for each loop that gets the hang-up: looking the descriptor up and `close` before the lock,
    and the erasures under it. `CloseAndErase` makes them one. */
module Proxy {
  import opened Basics
  import opened DivMod
  import opened LoopGroup
  import Relay
  import opened Ledger
  import opened Transfer

  // ----- the session tables -----

  datatype Tables = Tables(
    sock: map<int, int>,      // sock_map_: backend to client
    rev: map<int, int>,       // reversed_map_: client to backend
    open: set<int>,           // backend descriptors that are open
    looking: multiset<int>,   // reported closed and looked up, once for each loop that will close it
    closing: multiset<int>)   // closed and not yet erased, once for each loop at it

  const NOBODY: multiset<int> := multiset{}
  const NO_SESSIONS := Tables(map[], map[], {}, NOBODY, NOBODY)

  /** `emplace` keeps the value of a key that is already there. */
  function Emplace(m: map<int, int>, k: int, v: int): map<int, int> {
    if k in m then m else m[k := v]
  }

  datatype Step =
    | Connect(client: int, fd: int)   // a request; `connect` would answer `fd`
    | CloseAndErase(fd: int)
    | Look(fd: int)
    | Close(fd: int)
    | Erase(fd: int)

  /** Whatever session the table holds for `fd` now is gone. */
  function Erased(t: Tables, fd: int): (t': Tables)
    ensures t'.sock.Keys == t.sock.Keys - {fd}
  {
    if fd !in t.sock then t else t.(rev := t.rev - {t.sock[fd]}, sock := t.sock - {fd})
  }

  function Connected(t: Tables, client: int, fd: int): Tables {
    t.(sock := Emplace(t.sock, fd, client), rev := Emplace(t.rev, client, fd), open := t.open + {fd})
  }

  /** A new session is wanted, and the kernel answers with a descriptor not in use. */
  predicate Connects(t: Tables, s: Step) {
    s.Connect? && s.client !in t.rev && s.fd !in t.open
  }

  function Next(t: Tables, s: Step): Tables {
    match s
    case Connect(client, fd) => if Connects(t, s) then Connected(t, client, fd) else t
    case CloseAndErase(fd) => if fd in t.sock then Erased(t.(open := t.open - {fd}), fd) else t
    case Look(fd) => if fd in t.sock then t.(looking := t.looking + multiset{fd}) else t
    case Close(fd) =>
      if fd !in t.looking then t
      else t.(open := t.open - {fd}, looking := t.looking - multiset{fd}, closing := t.closing + multiset{fd})
    case Erase(fd) =>
      if fd !in t.closing then t else Erased(t.(closing := t.closing - multiset{fd}), fd)
  }

  function Run(steps: seq<Step>): Tables {
    if |steps| == 0 then NO_SESSIONS else Next(Run(steps[..|steps| - 1]), steps[|steps| - 1])
  }

  /** The tables are each other's inverse. */
  ghost predicate Inverse(t: Tables) {
    && (forall fd :: fd in t.sock ==> t.sock[fd] in t.rev && t.rev[t.sock[fd]] == fd)
    && (forall c :: c in t.rev ==> t.rev[c] in t.sock && t.sock[t.rev[c]] == c)
  }

  /** The tables are each other's inverse, and every open backend is known. */
  ghost predicate Intact(t: Tables) {
    Inverse(t) && t.open <= t.sock.Keys
  }

  /** The connect answers with a descriptor whose old session is not erased yet. */
  predicate Reuses(t: Tables, s: Step) { Connects(t, s) && s.fd in t.sock }

  /** The erasure meets a descriptor that is open again: its old session has been erased by
      another loop, and it has a new one. */
  predicate Overtaken(t: Tables, s: Step) { s.Erase? && s.fd in t.closing && s.fd in t.open }

  predicate NeverBreaks(steps: seq<Step>) {
    |steps| > 0 ==>
      var front, last := steps[..|steps| - 1], steps[|steps| - 1];
      NeverBreaks(front) && !Reuses(Run(front), last) && !Overtaken(Run(front), last)
  }

  /** The tables are intact after every step of the run. */
  ghost predicate AlwaysIntact(steps: seq<Step>) {
    Intact(Run(steps)) && (|steps| > 0 ==> AlwaysIntact(steps[..|steps| - 1]))
  }

  lemma ErasedInverse(t: Tables, fd: int)
    requires Inverse(t)
    ensures Inverse(Erased(t, fd))
  {
    if fd in t.sock {
      var c := t.sock[fd];
      forall f | f in t.sock && f != fd ensures t.sock[f] != c {
        assert t.rev[t.sock[f]] == f;
      }
    }
  }

  /** From intact tables, a step breaks them exactly when it reuses or is overtaken. */
  lemma StepIntactIff(t: Tables, s: Step)
    requires Intact(t)
    ensures Intact(Next(t, s)) <==> !Reuses(t, s) && !Overtaken(t, s)
  {
    match s
    case Connect(client, fd) =>
      if Reuses(t, s) {
        assert Next(t, s).rev[client] == fd;
        assert t.sock[fd] in t.rev;
      } else if Connects(t, s) {
        assert Next(t, s).sock.Keys == t.sock.Keys + {fd};
      }
    case CloseAndErase(fd) => ErasedInverse(t.(open := t.open - {fd}), fd);
    case Look(fd) =>
    case Close(fd) =>
    case Erase(fd) =>
      if fd in t.closing { ErasedInverse(t.(closing := t.closing - multiset{fd}), fd); }
  }

  /** Over every run, with any number of loops anywhere in the teardown of any descriptors, the
      tables stay intact throughout exactly when no connect answers with a descriptor whose
      session is not erased yet, and no erasure comes when its descriptor is open again. */
  lemma {:induction false} SessionsIntactIff(steps: seq<Step>)
    ensures AlwaysIntact(steps) <==> NeverBreaks(steps)
  {
    if |steps| > 0 {
      var front, last := steps[..|steps| - 1], steps[|steps| - 1];
      SessionsIntactIff(front);
      if NeverBreaks(front) {
        StepIntactIff(Run(front), last);
      }
    }
  }

  // ----- one loop for each teardown -----

  predicate NeverReuses(steps: seq<Step>) {
    |steps| > 0 ==>
      var front, last := steps[..|steps| - 1], steps[|steps| - 1];
      NeverReuses(front) && !Reuses(Run(front), last)
  }

  /** No loop starts the teardown of a descriptor that another one is at. */
  predicate OneCloser(steps: seq<Step>) {
    |steps| > 0 ==>
      var front, last := steps[..|steps| - 1], steps[|steps| - 1];
      && OneCloser(front)
      && (last.Look? || last.CloseAndErase? ==> last.fd !in Run(front).looking + Run(front).closing)
  }

  /** Known descriptors are open or about to be erased, by one loop each. */
  ghost predicate Good(t: Tables) {
    && Intact(t)
    && (forall fd :: fd in t.sock <==> fd in t.open || fd in t.closing)
    && (forall fd :: fd in t.closing ==> fd !in t.open)
    && (forall fd :: fd in t.looking ==> fd in t.open)
    && (forall fd :: t.looking[fd] + t.closing[fd] <= 1)
  }

  lemma StepGood(t: Tables, s: Step)
    requires Good(t) && !Reuses(t, s)
    requires s.Look? || s.CloseAndErase? ==> s.fd !in t.looking + t.closing
    ensures Good(Next(t, s)) && !Overtaken(t, s)
  {
    hide Inverse;
    StepIntactIff(t, s);
  }

  /** With one loop for each teardown, the tables stay intact exactly when no connect answers
      with a descriptor that is still in the gap between its `close` and its erasure. */
  lemma {:induction false} OneCloserIntactIff(steps: seq<Step>)
    requires OneCloser(steps)
    ensures AlwaysIntact(steps) <==> NeverReuses(steps)
    ensures NeverReuses(steps) ==> Good(Run(steps))
  {
    if |steps| > 0 {
      var front, last := steps[..|steps| - 1], steps[|steps| - 1];
      OneCloserIntactIff(front);
      if NeverReuses(front) {
        StepIntactIff(Run(front), last);
        if !Reuses(Run(front), last) {
          StepGood(Run(front), last);
        }
      }
    }
  }

  // ----- the teardown as one step -----

  /** Intact tables, and nobody in the middle of a teardown. */
  ghost predicate Settled(t: Tables) {
    Intact(t) && t.sock.Keys == t.open && t.looking == t.closing == NOBODY
  }

  lemma StepSettled(t: Tables, s: Step)
    requires Settled(t) && (s.Connect? || s.CloseAndErase?)
    ensures Settled(Next(t, s))
  {
    StepIntactIff(t, s);
  }

  /** With the whole teardown as one step, every run keeps the tables mutually inverse, and the
      known backends are exactly the open ones, however many loops report a hang-up. */
  lemma {:induction false} SerialisedSessions(steps: seq<Step>)
    requires forall i :: 0 <= i < |steps| ==> steps[i].Connect? || steps[i].CloseAndErase?
    ensures Inverse(Run(steps)) && Run(steps).sock.Keys == Run(steps).open && Settled(Run(steps))
  {
    if |steps| > 0 {
      SerialisedSessions(steps[..|steps| - 1]);
      StepSettled(Run(steps[..|steps| - 1]), steps[|steps| - 1]);
    }
  }

  /** Undisturbed, the three steps are the one. */
  lemma TeardownIsOneStep(t: Tables, fd: int)
    requires fd in t.sock
    ensures Next(Next(Next(t, Look(fd)), Close(fd)), Erase(fd)) == Next(t, CloseAndErase(fd))
  {
    assert t.looking + multiset{fd} - multiset{fd} == t.looking;
    assert t.closing + multiset{fd} - multiset{fd} == t.closing;
  }

  // ----- the interleavings that break the code -----

  lemma RunMore(steps: seq<Step>, step: Step)
    ensures Run(steps + [step]) == Next(Run(steps), step)
  {
    assert (steps + [step])[..|steps|] == steps;
  }

  lemma FirstSession(steps: seq<Step>)
    requires steps == [Connect(1, 10)] + [Look(10)]
    ensures Run(steps) == Tables(map[10 := 1], map[1 := 10], {10}, multiset{10}, NOBODY)
  {
    RunMore([], Connect(1, 10));
    assert [] + [Connect(1, 10)] == [Connect(1, 10)];
    RunMore([Connect(1, 10)], Look(10));
  }

  /** The second session ends up open and known by its client, but not by its backend, so its
      first backend event finds no entry. */
  lemma ReuseBreaksSession() returns (steps: seq<Step>)
    ensures steps == [Connect(1, 10), Look(10), Close(10), Connect(2, 10), Erase(10)]
    ensures Run(steps).open == {10} && Run(steps).rev == map[2 := 10] && Run(steps).sock == map[]
  {
    hide Run, Next;
    var s := [Connect(1, 10)] + [Look(10)];
    FirstSession(s);
    RunMore(s, Close(10));
    RunMore(s + [Close(10)], Connect(2, 10));
    RunMore(s + [Close(10)] + [Connect(2, 10)], Erase(10));
    steps := s + [Close(10)] + [Connect(2, 10)] + [Erase(10)];
    ReuseStates(Run(s));
  }

  lemma ReuseStates(t: Tables)
    requires t == Tables(map[10 := 1], map[1 := 10], {10}, multiset{10}, NOBODY)
    ensures Next(Next(Next(t, Close(10)), Connect(2, 10)), Erase(10))
      == Tables(map[], map[2 := 10], {10}, NOBODY, NOBODY)
  {
    assert t.looking - multiset{10} == NOBODY && NOBODY + multiset{10} - multiset{10} == NOBODY;
    var u := Next(t, Close(10));
    assert u == Tables(map[10 := 1], map[1 := 10], {}, NOBODY, multiset{10});
    assert Next(u, Connect(2, 10)).rev == map[1 := 10, 2 := 10];
  }

  /** Two loops get the hang-up. The second one erases the session that the descriptor has got
      after the first one's erasure, and leaves it open and unknown to both tables. */
  lemma SecondLoopBreaksSession() returns (steps: seq<Step>)
    ensures steps == [Connect(1, 10), Look(10), Look(10), Close(10), Close(10), Erase(10), Connect(2, 10), Erase(10)]
    ensures Run(steps).open == {10} && Run(steps).rev == map[] && Run(steps).sock == map[]
    ensures NeverReuses(steps)
  {
    hide Run, NeverReuses, Next;
    var s2 := [Connect(1, 10)] + [Look(10)];
    FirstSession(s2);
    NeverReusesFirst(s2);
    SecondLoopStates(Run(s2));
    var s3 := s2 + [Look(10)];
    RunMore(s2, Look(10));
    var s4 := s3 + [Close(10)];
    RunMore(s3, Close(10));
    var s5 := s4 + [Close(10)];
    RunMore(s4, Close(10));
    var s6 := s5 + [Erase(10)];
    RunMore(s5, Erase(10));
    var s7 := s6 + [Connect(2, 10)];
    RunMore(s6, Connect(2, 10));
    steps := s7 + [Erase(10)];
    RunMore(s7, Erase(10));
    NeverReusesMore(s2, Look(10));
    NeverReusesMore(s3, Close(10));
    NeverReusesMore(s4, Close(10));
    NeverReusesMore(s5, Erase(10));
    NeverReusesMore(s6, Connect(2, 10));
    NeverReusesMore(s7, Erase(10));
  }

  lemma SecondLoopStates(t: Tables)
    requires t == Tables(map[10 := 1], map[1 := 10], {10}, multiset{10}, NOBODY)
    ensures
      var u := Next(Next(Next(Next(t, Look(10)), Close(10)), Close(10)), Erase(10));
      && u == Tables(map[], map[], {}, NOBODY, multiset{10})
      && Next(Next(u, Connect(2, 10)), Erase(10)) == Tables(map[], map[], {10}, NOBODY, NOBODY)
  {
    hide Next;
    BothClose(t);
    FirstErases();
    SecondErases();
  }

  lemma FirstErases()
    ensures Next(Tables(map[10 := 1], map[1 := 10], {}, NOBODY, multiset{10, 10}), Erase(10))
      == Tables(map[], map[], {}, NOBODY, multiset{10})
  {
    assert multiset{10, 10} - multiset{10} == multiset{10};
  }

  lemma SecondErases()
    ensures Next(Next(Tables(map[], map[], {}, NOBODY, multiset{10}), Connect(2, 10)), Erase(10))
      == Tables(map[], map[], {10}, NOBODY, NOBODY)
  {
    var t := Tables(map[10 := 2], map[2 := 10], {10}, NOBODY, multiset{10});
    assert Next(Tables(map[], map[], {}, NOBODY, multiset{10}), Connect(2, 10)) == t;
    assert multiset{10} - multiset{10} == NOBODY;
  }

  lemma BothClose(t: Tables)
    requires t == Tables(map[10 := 1], map[1 := 10], {10}, multiset{10}, NOBODY)
    ensures Next(Next(Next(t, Look(10)), Close(10)), Close(10))
      == Tables(map[10 := 1], map[1 := 10], {}, NOBODY, multiset{10, 10})
  {
    hide Connected, Erased;
    var a := Next(t, Look(10));
    assert a.looking == multiset{10, 10};
    var b := Next(a, Close(10));
    assert b.looking == multiset{10} && b.closing == multiset{10} && b.open == {};
    assert b.looking - multiset{10} == NOBODY && b.closing + multiset{10} == multiset{10, 10};
  }

  lemma NeverReusesFirst(steps: seq<Step>)
    requires steps == [Connect(1, 10)] + [Look(10)]
    ensures NeverReuses(steps)
  {
    NeverReusesMore([], Connect(1, 10));
    assert [] + [Connect(1, 10)] == [Connect(1, 10)];
    NeverReusesMore([Connect(1, 10)], Look(10));
  }

  lemma NeverReusesMore(steps: seq<Step>, step: Step)
    ensures NeverReuses(steps + [step]) <==> NeverReuses(steps) && !Reuses(Run(steps), step)
  {
    assert (steps + [step])[..|steps|] == steps;
  }

  // ----- sessions and ledger together -----

  /** One forwarding order: the client, the descriptor a connect would return (`None` when it
      throws), the client's address, and what `forward` meets. */
  datatype Order = Order(client: int, fd: Option<int>, addr: Addr, job: Job)

  /** One report on a backend descriptor. */
  datatype Report = Report(fd: int, readable: bool, closable: bool, job: Job)

  /** One transfer: from a client to its backend, or back. */
  datatype Delivery =
    | Upstream(client: int, backend: int, addr: Addr, job: Job, bytes: seq<char>)
    | Downstream(client: int, backend: int, job: Job, bytes: seq<char>)

  datatype System = System(
    tables: Tables,
    traffic: Accounts,
    sent: seq<Delivery>,         // every transfer, in order
    loops: Pos,                  // event loops of the group
    registered: nat,             // registrations with the group so far
    watchers: map<int, set<int>>)   // the loops that watch each backend descriptor

  function Idle(n: Pos): System { System(NO_SESSIONS, map[], [], n, 0, map[]) }

  /** How many bytes of the log reached a backend for the address. */
  function SentFor(log: seq<Delivery>, addr: Addr): nat {
    if |log| == 0 then 0
    else
      var last := log[|log| - 1];
      SentFor(log[..|log| - 1], addr) + if last.Upstream? && last.addr == addr then |last.bytes| else 0
  }

  lemma SentForMore(log: seq<Delivery>, d: Delivery, addr: Addr)
    ensures SentFor(log + [d], addr)
         == SentFor(log, addr) + if d.Upstream? && d.addr == addr then |d.bytes| else 0
  {
    assert (log + [d])[..|log|] == log;
  }

  /** The session part of an order. */
  function Paired(t: Tables, o: Order): Tables {
    if o.fd.Some? then Next(t, Connect(o.client, o.fd.value)) else t
  }

  function WatchedAlso(watchers: map<int, set<int>>, fd: int, loop: int): map<int, set<int>> {
    watchers[fd := if fd in watchers then watchers[fd] + {loop} else {loop}]
  }

  /** The loops of the r-th registration and the next. */
  function LoopPair(r: nat, n: Pos): set<int> { {r % n, (r + 1) % n} }

  lemma WatchedTwice(watchers: map<int, set<int>>, fd: int, r: nat, n: Pos)
    requires fd !in watchers
    ensures WatchedAlso(watchers[fd := {r % n}], fd, (r + 1) % n) == watchers[fd := LoopPair(r, n)]
  {
    var one := watchers[fd := {r % n}];
    assert one[fd] + {(r + 1) % n} == LoopPair(r, n);
  }

  /** A new backend is registered twice: on connecting, and when its session is set up. */
  function AfterPairing(s: System, o: Order): System {
    var s' := s.(tables := Paired(s.tables, o));
    if o.fd.Some? && Connects(s.tables, Connect(o.client, o.fd.value)) then
      s'.(registered := s.registered + 2, watchers := s.watchers[o.fd.value := LoopPair(s.registered, s.loops)])
    else s'
  }

  function AfterOrder(s: System, o: Order): (s': System)
    ensures s'.tables == Paired(s.tables, o)
  {
    var s' := AfterPairing(s, o);
    var t := s'.tables;
    if o.client !in t.rev || Limited(s.traffic, o.addr) then s'
    else
      var bytes := ForwardSent(o.job);
      var s'' := s'.(sent := s.sent + [Upstream(o.client, t.rev[o.client], o.addr, o.job, bytes)]);
      if bytes != [] then s''.(traffic := Accounted(s.traffic, o.addr, |bytes|)) else s''
  }

  function AfterReport(s: System, r: Report): System {
    if r.fd !in s.tables.sock then s
    else if r.closable then
      s.(tables := Next(s.tables, CloseAndErase(r.fd)), watchers := s.watchers - {r.fd})
    else if r.readable then
      s.(sent := s.sent + [Downstream(s.tables.sock[r.fd], r.fd, r.job, ForwardSent(r.job))])
    else s
  }

  /** A batch of orders; a throwing connect abandons the rest (`ok` is false). */
  function AfterOrders(s: System, orders: seq<Order>): (System, bool) {
    if |orders| == 0 then (s, true)
    else
      var (m, ok) := AfterOrders(s, orders[..|orders| - 1]);
      var o := orders[|orders| - 1];
      if ok then (AfterOrder(m, o), o.client in Paired(m.tables, o).rev) else (m, false)
  }

  /** A batch of reports; a descriptor without an entry throws and abandons the rest. */
  function AfterReports(s: System, reports: seq<Report>): (System, bool) {
    if |reports| == 0 then (s, true)
    else
      var (m, ok) := AfterReports(s, reports[..|reports| - 1]);
      var r := reports[|reports| - 1];
      if ok then (AfterReport(m, r), r.fd in m.tables.sock) else (m, false)
  }

  /** Once a batch is abandoned, the rest of it has no effect. */
  lemma {:induction false} AbandonedOrders(s: System, orders: seq<Order>, i: nat)
    requires i <= |orders| && !AfterOrders(s, orders[..i]).1
    ensures AfterOrders(s, orders) == AfterOrders(s, orders[..i])
    decreases |orders|
  {
    if i < |orders| {
      assert orders[..|orders| - 1][..i] == orders[..i];
      AbandonedOrders(s, orders[..|orders| - 1], i);
    } else {
      assert orders[..i] == orders;
    }
  }

  lemma {:induction false} AbandonedReports(s: System, reports: seq<Report>, i: nat)
    requires i <= |reports| && !AfterReports(s, reports[..i]).1
    ensures AfterReports(s, reports) == AfterReports(s, reports[..i])
    decreases |reports|
  {
    if i < |reports| {
      assert reports[..|reports| - 1][..i] == reports[..i];
      AbandonedReports(s, reports[..|reports| - 1], i);
    } else {
      assert reports[..i] == reports;
    }
  }

  datatype Call = Register(addr: Addr) | Forwarding(orders: seq<Order>) | Backend(reports: seq<Report>)

  /** `Register` is the server's part: a charge of 0 when a client is accepted. */
  function Stepped(s: System, c: Call): System {
    match c
    case Register(addr) => s.(traffic := Accounted(s.traffic, addr, 0))
    case Forwarding(orders) => AfterOrders(s, orders).0
    case Backend(reports) => AfterReports(s, reports).0
  }

  function Ran(n: Pos, calls: seq<Call>): System {
    if |calls| == 0 then Idle(n) else Stepped(Ran(n, calls[..|calls| - 1]), calls[|calls| - 1])
  }

  /** Every open backend is watched by the loops of two successive registrations. */
  ghost predicate Watched(s: System) {
    && s.watchers.Keys == s.tables.open
    && forall b :: b in s.watchers ==> exists r: nat :: s.watchers[b] == LoopPair(r, s.loops)
  }

  /** The bytes in the log are what `forward` sent. */
  ghost predicate Genuine(log: seq<Delivery>) {
    forall i :: 0 <= i < |log| ==> log[i].bytes == ForwardSent(log[i].job)
  }

  /** Good tables with no teardown under way, a balanced ledger, backends watched, and a log
      of what was really sent. */
  ghost predicate Sound(s: System) {
    && Settled(s.tables)
    && Balanced(s.traffic, a => SentFor(s.sent, a), MAX_PACKET_SIZE)
    && Watched(s) && Genuine(s.sent)
  }

  lemma OrderSound(s: System, o: Order)
    requires Sound(s)
    ensures Sound(AfterOrder(s, o))
  {
    hide Settled, LoopPair, Balanced, Accounted, SentFor, AfterPairing, Paired;
    PairingSound(s, o);
    OrderBalanced(s, o);
  }

  lemma PairingSound(s: System, o: Order)
    requires Settled(s.tables) && Watched(s)
    ensures
      var s' := AfterPairing(s, o);
      && Settled(s'.tables) && Watched(s')
      && s' == s.(tables := Paired(s.tables, o), registered := s'.registered, watchers := s'.watchers)
  {
    hide LoopPair;
    if o.fd.Some? {
      StepSettled(s.tables, Connect(o.client, o.fd.value));
    }
    assert AfterPairing(s, o).watchers.Keys == Paired(s.tables, o).open;
  }

  lemma OrderBalanced(s: System, o: Order)
    requires Balanced(s.traffic, a => SentFor(s.sent, a), MAX_PACKET_SIZE)
    ensures Balanced(AfterOrder(s, o).traffic, a => SentFor(AfterOrder(s, o).sent, a), MAX_PACKET_SIZE)
  {
    hide Accounted, SentFor, Next, LoopPair;
    var t := Paired(s.tables, o);
    if o.client in t.rev && !Limited(s.traffic, o.addr) {
      var bytes := ForwardSent(o.job);
      var d := Upstream(o.client, t.rev[o.client], o.addr, o.job, bytes);
      forall a ensures SentFor(s.sent + [d], a) == SentFor(s.sent, a) + if a == o.addr then |bytes| else 0 {
        SentForMore(s.sent, d, a);
      }
      ChargeBalanced(s.traffic, a => SentFor(s.sent, a), a => SentFor(s.sent + [d], a),
        MAX_PACKET_SIZE, o.addr, |bytes|);
    }
  }

  lemma ReportSound(s: System, r: Report)
    requires Sound(s)
    ensures Sound(AfterReport(s, r))
  {
    hide SentFor;
    StepSettled(s.tables, CloseAndErase(r.fd));
    if r.fd in s.tables.sock {
      var d := Downstream(s.tables.sock[r.fd], r.fd, r.job, ForwardSent(r.job));
      forall a ensures SentFor(s.sent + [d], a) == SentFor(s.sent, a) {
        SentForMore(s.sent, d, a);
      }
    }
  }

  lemma {:induction false} OrdersSound(s: System, orders: seq<Order>)
    requires Sound(s)
    ensures Sound(AfterOrders(s, orders).0)
  {
    if |orders| > 0 {
      OrdersSound(s, orders[..|orders| - 1]);
      OrderSound(AfterOrders(s, orders[..|orders| - 1]).0, orders[|orders| - 1]);
    }
  }

  lemma {:induction false} ReportsSound(s: System, reports: seq<Report>)
    requires Sound(s)
    ensures Sound(AfterReports(s, reports).0)
  {
    if |reports| > 0 {
      ReportsSound(s, reports[..|reports| - 1]);
      ReportSound(AfterReports(s, reports[..|reports| - 1]).0, reports[|reports| - 1]);
    }
  }

  /** In every reachable state the ledger shows, for each address, exactly the bytes that the
      log of transfers delivered upstream for it, within one packet of the limit; and the
      tables are intact. */
  lemma {:induction false} LedgerExact(n: Pos, calls: seq<Call>)
    ensures Sound(Ran(n, calls))
    ensures
      var s := Ran(n, calls);
      forall a :: if a in s.traffic
        then s.traffic[a] == SentFor(s.sent, a) <= MAX_TRAFFIC + MAX_PACKET_SIZE
        else SentFor(s.sent, a) == 0
  {
    if |calls| > 0 {
      var s := Ran(n, calls[..|calls| - 1]);
      LedgerExact(n, calls[..|calls| - 1]);
      match calls[|calls| - 1]
      case Register(addr) => RegisterBalanced(s.traffic, a => SentFor(s.sent, a), MAX_PACKET_SIZE, addr);
      case Forwarding(orders) => OrdersSound(s, orders);
      case Backend(reports) => ReportsSound(s, reports);
    }
  }

  /** A request and its response use the same pair: in every reachable state, what the backend
      of a client's request answers goes to that client and to nobody else. */
  lemma ResponseReturns(n: Pos, calls: seq<Call>, o: Order, r: Report)
    requires r.readable && !r.closable
    requires
      var s := AfterOrder(Ran(n, calls), o);
      |s.sent| > |Ran(n, calls).sent| && s.sent[|s.sent| - 1].backend == r.fd
    ensures
      var s := AfterOrder(Ran(n, calls), o);
      var s' := AfterReport(s, r);
      && |s'.sent| == |s.sent| + 1
      && s'.sent[|s.sent|] == Downstream(o.client, r.fd, r.job, ForwardSent(r.job))
  {
    hide Ran, AfterPairing, Paired, Next, Balanced, Watched, Genuine, ForwardSent, Accounted, Limited, LoopPair;
    LedgerExact(n, calls);
    var before := Ran(n, calls);
    PairingSound(before, o);
    OrderSound(before, o);
    var s := AfterOrder(before, o);
    assert o.client in s.tables.rev && s.sent[|before.sent|].backend == s.tables.rev[o.client];
    assert Inverse(s.tables);
  }

  // ----- what a batch does -----

  lemma RanMore(n: Pos, calls: seq<Call>, c: Call)
    ensures Ran(n, calls + [c]) == Stepped(Ran(n, calls), c)
  {
    assert (calls + [c])[..|calls|] == calls;
  }

  /** A client that is accepted gets an account, unless its address has one. */
  lemma RegisterOutcome(n: Pos, calls: seq<Call>, addr: Addr)
    ensures
      var s := Ran(n, calls);
      Ran(n, calls + [Register(addr)]) == if addr in s.traffic then s else s.(traffic := s.traffic[addr := 0])
  {
    hide Accounted, Ran, Settled, Watched, Genuine, SentFor;
    RanMore(n, calls, Register(addr));
    LedgerExact(n, calls);
    NothingCharged(Ran(n, calls).traffic, addr);
  }

  lemma EmptyBatches(n: Pos, calls: seq<Call>)
    ensures Ran(n, calls + [Forwarding([])]) == Ran(n, calls) == Ran(n, calls + [Backend([])])
  {
    RanMore(n, calls, Forwarding([]));
    RanMore(n, calls, Backend([]));
  }

  /** From a reachable state, what one more order at the end of a batch does. It has a session if
      its client has one, or if `connect` finds a free descriptor. It is served, in the same
      go, if it has a session and its address is known and not over the limit: one packet goes
      upstream, and as many bytes are charged. Otherwise nothing is sent or charged. */
  ghost predicate Served(s: System, s': System, o: Order) {
    var before := o.client in s.tables.rev;
    var opens := !before && o.fd.Some? && o.fd.value !in s.tables.open;
    var b := if before then s.tables.rev[o.client] else if opens then o.fd.value else -1;
    && s'.tables == (if !opens then s.tables else
         s.tables.(sock := s.tables.sock[b := o.client], rev := s.tables.rev[o.client := b], open := s.tables.open + {b}))
    && (if (before || opens) && o.addr in s.traffic && s.traffic[o.addr] <= 0x7fff_ffff_ffff_ffff then
          && s'.sent == s.sent + [Upstream(o.client, b, o.addr, o.job, ForwardSent(o.job))]
          && s'.traffic == s.traffic[o.addr := s.traffic[o.addr] + |ForwardSent(o.job)|]
        else s'.sent == s.sent && s'.traffic == s.traffic)
  }

  lemma OrderServed(s: System, o: Order)
    requires Sound(s)
    ensures Served(s, AfterOrder(s, o), o)
    ensures o.client in Paired(s.tables, o).rev <==>
      o.client in s.tables.rev || (o.fd.Some? && o.fd.value !in s.tables.open)
  {
    hide LoopPair, ForwardSent, SentFor;
    if o.addr in s.traffic {
      assert s.traffic[o.addr := s.traffic[o.addr]] == s.traffic;
    }
  }

  lemma OrderOutcome(n: Pos, calls: seq<Call>, orders: seq<Order>, o: Order)
    requires AfterOrders(Ran(n, calls), orders).1
    ensures
      var s, s' := Ran(n, calls + [Forwarding(orders)]), Ran(n, calls + [Forwarding(orders + [o])]);
      && Served(s, s', o)
      && (AfterOrders(Ran(n, calls), orders + [o]).1 <==>
           o.client in s.tables.rev || (o.fd.Some? && o.fd.value !in s.tables.open))
  {
    hide AfterOrder, Served, Paired, Sound;
    RanMore(n, calls, Forwarding(orders));
    RanMore(n, calls, Forwarding(orders + [o]));
    LedgerExact(n, calls);
    OrdersSound(Ran(n, calls), orders);
    assert (orders + [o])[..|orders|] == orders;
    OrderServed(AfterOrders(Ran(n, calls), orders).0, o);
  }

  /** Every lookup of the batch finds a session: it was there, and no report before closed it. */
  predicate AllFound(t: Tables, reports: seq<Report>) {
    forall i :: 0 <= i < |reports| ==>
      reports[i].fd in t.sock && !CloseReported(reports[..i], reports[i].fd)
  }

  /** The answers that a batch hands on to the clients of the sessions as they were before it. */
  function Answers(t: Tables, reports: seq<Report>): seq<Delivery> {
    if |reports| == 0 then []
    else
      var r := reports[|reports| - 1];
      Answers(t, reports[..|reports| - 1]) +
      if r.readable && !r.closable && r.fd in t.sock
      then [Downstream(t.sock[r.fd], r.fd, r.job, ForwardSent(r.job))] else []
  }

  /** Just the sessions whose backends were reported closed have gone from everywhere, the other
      readable backends' answers have been handed on, and nothing was charged. */
  ghost predicate Reported(s: System, s': System, reports: seq<Report>) {
    && (forall b :: b in s'.tables.sock <==> b in s.tables.sock && !CloseReported(reports, b))
    && (forall b :: b in s'.tables.sock ==> s'.tables.sock[b] == s.tables.sock[b])
    && (forall c :: c in s'.tables.rev <==> c in s.tables.rev && !CloseReported(reports, s.tables.rev[c]))
    && (forall c :: c in s'.tables.rev ==> s'.tables.rev[c] == s.tables.rev[c])
    && s'.tables.open == s'.watchers.Keys == s'.tables.sock.Keys
    && s'.sent == s.sent + Answers(s.tables, reports)
    && s'.traffic == s.traffic
  }

  lemma {:induction false} ReportsReported(s: System, reports: seq<Report>)
    requires Sound(s)
    ensures AfterReports(s, reports).1 <==> AllFound(s.tables, reports)
    ensures AllFound(s.tables, reports) ==> Reported(s, AfterReports(s, reports).0, reports)
  {
    if |reports| > 0 {
      var front, r := reports[..|reports| - 1], reports[|reports| - 1];
      ReportsReported(s, front);
      AllFoundSplit(s.tables, reports);
      if AllFound(s.tables, front) {
        var m := AfterReports(s, front).0;
        ReportsSound(s, front);
        CloseReportedSplit(reports);
        if r.fd in m.tables.sock {
          ReportReported(s, m, front, r);
          assert front + [r] == reports;
        }
      }
    }
  }

  lemma AllFoundSplit(t: Tables, reports: seq<Report>)
    requires |reports| > 0
    ensures
      var front, r := reports[..|reports| - 1], reports[|reports| - 1];
      AllFound(t, reports) <==> AllFound(t, front) && r.fd in t.sock && !CloseReported(front, r.fd)
  {
    var front := reports[..|reports| - 1];
    assert forall i :: 0 <= i < |front| ==> front[i] == reports[i] && front[..i] == reports[..i];
  }

  lemma CloseReportedSplit(reports: seq<Report>)
    requires |reports| > 0
    ensures
      var front, r := reports[..|reports| - 1], reports[|reports| - 1];
      forall b :: CloseReported(reports, b) <==> CloseReported(front, b) || (r.fd == b && r.closable)
  {
    var front, r := reports[..|reports| - 1], reports[|reports| - 1];
    assert forall i :: 0 <= i < |front| ==> front[i] == reports[i];
    forall b | CloseReported(front, b) ensures CloseReported(reports, b) {
      var i :| 0 <= i < |front| && front[i].fd == b && front[i].closable;
      assert reports[i].fd == b && reports[i].closable;
    }
    assert r.closable ==> CloseReported(reports, r.fd);
  }

  lemma ReportReported(s: System, m: System, front: seq<Report>, r: Report)
    requires Sound(s) && Sound(m) && Reported(s, m, front) && r.fd in m.tables.sock
    ensures Reported(s, AfterReport(m, r), front + [r])
  {
    hide Balanced, Genuine, SentFor, ForwardSent;
    assert (front + [r])[..|front|] == front;
    CloseReportedSplit(front + [r]);
    if r.closable {
      assert m.tables.rev[m.tables.sock[r.fd]] == r.fd;
    }
  }

  /** For every batch of reports in every reachable state: each is served exactly when every
      lookup finds a session, and then the batch has done what `Reported` says. */
  lemma BatchOutcome(n: Pos, calls: seq<Call>, reports: seq<Report>)
    ensures AfterReports(Ran(n, calls), reports).1 <==> AllFound(Ran(n, calls).tables, reports)
    ensures AllFound(Ran(n, calls).tables, reports) ==>
      Reported(Ran(n, calls), Ran(n, calls + [Backend(reports)]), reports)
  {
    RanMore(n, calls, Backend(reports));
    LedgerExact(n, calls);
    ReportsReported(Ran(n, calls), reports);
  }

  // ----- registrations -----

  lemma PairSize(r: nat, n: Pos)
    ensures |LoopPair(r, n)| == if n > 1 then 2 else 1
  {
    CountStep(r, n);
  }

  /** In every reachable state, every session's backend is watched by two event loops if the
      group has more than one, and by the only one otherwise. */
  lemma WatchedByTwoLoopsIff(n: Pos, calls: seq<Call>, b: int)
    requires b in Ran(n, calls).tables.sock
    ensures
      var s := Ran(n, calls);
      b in s.watchers && 1 <= |s.watchers[b]| <= 2 && (|s.watchers[b]| == 2 <==> n > 1)
  {
    LedgerExact(n, calls);
    var s := Ran(n, calls);
    var r: nat :| s.watchers[b] == LoopPair(r, s.loops);
    PairSize(r, s.loops);
    SameLoops(n, calls);
  }

  /** In every reachable state, for every session: the loops that watch its backend hand all its
      answers to the client in order, however they interleave and as long as no `send` fails,
      if and only if the group has one loop. */
  lemma AnswersInOrderIff(n: Pos, calls: seq<Call>, b: int)
    requires b in Ran(n, calls).tables.sock
    ensures
      var watchers := Ran(n, calls).watchers;
      && b in watchers
      && ((forall steps :: Relay.Clean(steps, watchers[b]) ==> Relay.Run(steps).sent == Relay.Run(steps).read)
        <==> n == 1)
  {
    LedgerExact(n, calls);
    SameLoops(n, calls);
    var loops := Ran(n, calls).watchers[b];
    var r: nat :| loops == LoopPair(r, n);
    CountStep(r, n);
    assert r % n in loops && (r + 1) % n in loops;
    Relay.LoopsInOrderIff(loops);
  }

  lemma {:induction false} SameLoops(n: Pos, calls: seq<Call>)
    ensures Ran(n, calls).loops == n
  {
    if |calls| > 0 {
      var s := Ran(n, calls[..|calls| - 1]);
      SameLoops(n, calls[..|calls| - 1]);
      match calls[|calls| - 1]
      case Register(addr) =>
      case Forwarding(orders) => OrdersLoops(s, orders);
      case Backend(reports) => ReportsLoops(s, reports);
    }
  }

  lemma {:induction false} OrdersLoops(s: System, orders: seq<Order>)
    ensures AfterOrders(s, orders).0.loops == s.loops
  {
    if |orders| > 0 {
      OrdersLoops(s, orders[..|orders| - 1]);
    }
  }

  lemma {:induction false} ReportsLoops(s: System, reports: seq<Report>)
    ensures AfterReports(s, reports).0.loops == s.loops
  {
    if |reports| > 0 {
      ReportsLoops(s, reports[..|reports| - 1]);
    }
  }

  // ----- sessions are private -----

  predicate Tied(t: Tables, c: int, b: int) {
    c in t.rev && t.rev[c] == b && b in t.sock && t.sock[b] == c
  }

  /** From `s` to `s'` the session stays, and every transfer in either direction that touches
      its client or its backend runs between the two. */
  ghost predicate Private(s: System, s': System, c: int, b: int) {
    && Tied(s'.tables, c, b)
    && s.sent <= s'.sent
    && forall i :: |s.sent| <= i < |s'.sent| ==> (s'.sent[i].client == c <==> s'.sent[i].backend == b)
  }

  predicate CloseReported(reports: seq<Report>, b: int) {
    exists i :: 0 <= i < |reports| && reports[i].fd == b && reports[i].closable
  }

  lemma OrderPrivate(s: System, o: Order, c: int, b: int)
    requires Sound(s) && Tied(s.tables, c, b)
    ensures Private(s, AfterOrder(s, o), c, b)
  {
    hide Balanced, Limited, Accounted, ForwardSent;
    OrderSound(s, o);
    var t := Paired(s.tables, o);
    assert Tied(t, c, b);
    assert o.client in t.rev ==> (o.client == c <==> t.rev[o.client] == b);
  }

  lemma ReportPrivate(s: System, r: Report, c: int, b: int)
    requires Sound(s) && Tied(s.tables, c, b) && !(r.fd == b && r.closable)
    ensures Private(s, AfterReport(s, r), c, b)
  {
  }

  lemma {:induction false} OrdersPrivate(s: System, orders: seq<Order>, c: int, b: int)
    requires Sound(s) && Tied(s.tables, c, b)
    ensures Private(s, AfterOrders(s, orders).0, c, b)
  {
    if |orders| > 0 {
      var front := orders[..|orders| - 1];
      OrdersPrivate(s, front, c, b);
      OrdersSound(s, front);
      OrderPrivate(AfterOrders(s, front).0, orders[|orders| - 1], c, b);
    }
  }

  lemma {:induction false} ReportsPrivate(s: System, reports: seq<Report>, c: int, b: int)
    requires Sound(s) && Tied(s.tables, c, b) && !CloseReported(reports, b)
    ensures Private(s, AfterReports(s, reports).0, c, b)
  {
    if |reports| > 0 {
      var front := reports[..|reports| - 1];
      assert !CloseReported(front, b);
      ReportsPrivate(s, front, c, b);
      ReportsSound(s, front);
      ReportPrivate(AfterReports(s, front).0, reports[|reports| - 1], c, b);
    }
  }

  /** Over any run, from the request that opens a session until its backend is reported
      closed, all of its client's requests go to that backend, everything the backend answers
      goes to that client, and nobody else's bytes reach either. */
  lemma {:induction false} SessionPrivate(n: Pos, calls: seq<Call>, more: seq<Call>, c: int)
    requires c in Ran(n, calls).tables.rev
    requires forall i :: 0 <= i < |more| && more[i].Backend? ==>
      !CloseReported(more[i].reports, Ran(n, calls).tables.rev[c])
    ensures Private(Ran(n, calls), Ran(n, calls + more), c, Ran(n, calls).tables.rev[c])
    decreases |more|
  {
    LedgerExact(n, calls);
    if |more| == 0 {
      assert calls + more == calls;
    } else {
      var front, last := more[..|more| - 1], more[|more| - 1];
      var b := Ran(n, calls).tables.rev[c];
      assert (calls + more)[..|calls + more| - 1] == calls + front;
      SessionPrivate(n, calls, front, c);
      var s := Ran(n, calls + front);
      LedgerExact(n, calls + front);
      match last
      case Register(addr) =>
      case Forwarding(orders) => OrdersPrivate(s, orders, c, b);
      case Backend(reports) => ReportsPrivate(s, reports, c, b);
    }
  }

  /** The calls of `forward` from the client (`up`) or to it. */
  function JobsOf(log: seq<Delivery>, client: int, up: bool): seq<Job> {
    if |log| == 0 then []
    else
      var last := log[|log| - 1];
      JobsOf(log[..|log| - 1], client, up) + if last.client == client && last.Upstream? == up then [last.job] else []
  }

  /** The bytes that got through. */
  function BytesOf(log: seq<Delivery>, client: int, up: bool): seq<char> {
    if |log| == 0 then []
    else
      var last := log[|log| - 1];
      BytesOf(log[..|log| - 1], client, up) + if last.client == client && last.Upstream? == up then last.bytes else []
  }

  lemma {:induction false} BytesAreSent(log: seq<Delivery>, client: int, up: bool)
    requires Genuine(log)
    ensures BytesOf(log, client, up) == SentAll(JobsOf(log, client, up))
  {
    if |log| > 0 {
      var front, last := log[..|log| - 1], log[|log| - 1];
      BytesAreSent(front, client, up);
      if last.client == client && last.Upstream? == up {
        var before, jobs := JobsOf(front, client, up), JobsOf(log, client, up);
        assert jobs == before + [last.job] && jobs[..|jobs| - 1] == before;
      } else {
        assert JobsOf(log, client, up) == JobsOf(front, client, up);
      }
    }
  }

  /** Over any run, while a session lasts: all transfers that touch its client or its backend are
      between the two. From the client, and with one loop to the client too, the bytes that got
      through are exactly the bytes read, in order, if and only if no `forward` in that
      direction was cut. With more loops a packet can also overtake another (AnswersInOrderIff,
      Relay.DeliversInOrderIff). */
  lemma SessionDeliversIff(n: Pos, calls: seq<Call>, more: seq<Call>, c: int, up: bool)
    requires c in Ran(n, calls).tables.rev
    requires up || n == 1
    requires forall i :: 0 <= i < |more| && more[i].Backend? ==>
      !CloseReported(more[i].reports, Ran(n, calls).tables.rev[c])
    ensures Private(Ran(n, calls), Ran(n, calls + more), c, Ran(n, calls).tables.rev[c])
    ensures
      var log := Ran(n, calls + more).sent[|Ran(n, calls).sent|..];
      var jobs := JobsOf(log, c, up);
      BytesOf(log, c, up) == ReadAll(jobs) <==> forall i :: 0 <= i < |jobs| ==> !jobs[i].Cut()
  {
    SessionPrivate(n, calls, more, c);
    LedgerExact(n, calls + more);
    var log := Ran(n, calls + more).sent[|Ran(n, calls).sent|..];
    BytesAreSent(log, c, up);
    ForwardsDeliverIff(JobsOf(log, c, up));
  }

  // ----- the implementation -----

  class ProxyServer {
    const center: PubSubCenter
    const group: LoopThreadGroup
    var sockMap: map<int, int>
    var reversedMap: map<int, int>
    var open: set<int>
    var looking: multiset<int>
    var closing: multiset<int>
    var sent: seq<Delivery>
    var watchers: map<int, set<int>>   // what the kernel watches, and for which loops

    /** Every known backend is open, and every open one known. */
    ghost predicate Valid()
      reads this, group
    {
      group.Valid() && open == sockMap.Keys == watchers.Keys && looking == closing == NOBODY
    }

    ghost function Sessions(): Tables
      reads this
    {
      Tables(sockMap, reversedMap, open, looking, closing)
    }

    ghost function View(): System
      reads this, center, group
    {
      System(Sessions(), center.traffic, sent, group.loops, |group.registered|, watchers)
    }

    constructor (center: PubSubCenter, group: LoopThreadGroup)
      requires group.Valid()
      ensures Valid() && this.center == center && this.group == group
      ensures View() == Idle(group.loops).(traffic := center.traffic, registered := |group.registered|)
    {
      this.center, this.group := center, group;
      sockMap, reversedMap, open, looking, closing := map[], map[], {}, NOBODY, NOBODY;
      sent, watchers := [], map[];
    }

    /** The group's next loop watches `fd` from now on. */
    method Watch(fd: int)
      requires group.Valid()
      modifies group, this`watchers
      ensures group.Valid() && |group.registered| == old(|group.registered|) + 1
      ensures watchers == WatchedAlso(old(watchers), fd, old(|group.registered|) % group.loops)
    {
      var loop := group.RegisterFd();
      watchers := WatchedAlso(watchers, fd, loop);
    }

    /** `connect` answers `fd`; the descriptor is watched before the tables know it. */
    method EstablishWith(fd: int)
      requires group.Valid() && fd !in open && fd !in watchers
      modifies group, this`open, this`watchers
      ensures group.Valid() && |group.registered| == old(|group.registered|) + 1
      ensures open == old(open) + {fd}
      ensures watchers == old(watchers)[fd := {old(|group.registered|) % group.loops}]
    {
      open := open + {fd};
      Watch(fd);
    }

    /** A session for a new client; a failed connect throws, and then `ok` is false. */
    method Pair(o: Order) returns (ok: bool)
      requires Valid() && o.client !in reversedMap
      modifies this`sockMap, this`reversedMap, this`open, this`watchers, group
      ensures Valid() && View() == AfterPairing(old(View()), o)
      ensures ok <==> o.client in reversedMap
    {
      hide LoopPair, WatchedAlso;
      if o.fd.None? || o.fd.value in open {
        return false;
      }
      var sock := o.fd.value;
      EstablishWith(sock);
      if sock !in sockMap {
        sockMap := sockMap[sock := o.client];
      }
      reversedMap := reversedMap[o.client := sock];
      Watch(sock);
      WatchedTwice(old(watchers), sock, old(|group.registered|), group.loops);
      ok := true;
    }

    /** One order of updateForForward. A failed connect throws: `ok` is false. */
    method ForwardOne(o: Order) returns (ok: bool)
      requires Valid()
      modifies this, center, group
      ensures Valid() && View() == AfterOrder(old(View()), o)
      ensures ok <==> o.client in reversedMap
    {
      if o.client !in reversedMap {
        ok := Pair(o);
        if !ok {
          return;
        }
      }
      ok := true;
      var sock := reversedMap[o.client];
      var limited := center.IsLimited(o.addr);
      if limited {
        return;
      }
      var total, bytes := Forward(o.job);
      sent := sent + [Upstream(o.client, sock, o.addr, o.job, bytes)];
      if total > 0 {
        center.Account(o.addr, total);
      }
    }

    /** `at`, with which a closing report begins; it throws for an unknown descriptor. */
    method LookUp(fd: int) returns (ok: bool)
      modifies this`looking
      ensures Sessions() == Next(old(Sessions()), Look(fd)) && ok == (fd in sockMap)
    {
      ok := fd in sockMap;
      if ok {
        looking := looking + multiset{fd};
      }
    }

    /** The teardown before the lock is taken, by a loop that has looked the descriptor up; others
        may have closed it by now. The kernel forgets a closed descriptor. */
    method CloseSocket(fd: int)
      requires fd in looking
      modifies this`open, this`looking, this`closing, this`watchers
      ensures Sessions() == Next(old(Sessions()), Close(fd)) && watchers == old(watchers) - {fd}
    {
      hide Connected, Erased;
      open, watchers := open - {fd}, watchers - {fd};
      looking, closing := looking - multiset{fd}, closing + multiset{fd};
    }

    /** The teardown under the lock, by a loop that has closed the descriptor; others may have
        erased its session by now, or given it a new one. */
    method EraseSession(fd: int)
      requires fd in closing
      modifies this`sockMap, this`reversedMap, this`closing
      ensures Sessions() == Next(old(Sessions()), Erase(fd))
    {
      closing := closing - multiset{fd};
      if fd !in sockMap {
        return;
      }
      reversedMap := reversedMap - {sockMap[fd]};
      sockMap := sockMap - {fd};
    }

    /** One report of updateForWait; `ok` is false when the table lookup throws. */
    method ReportOne(r: Report) returns (ok: bool)
      requires Valid()
      modifies this
      ensures ok <==> r.fd in old(sockMap)
      ensures Valid() && View() == AfterReport(old(View()), r)
    {
      if r.closable {
        ok := LookUp(r.fd);
        if ok {
          TeardownIsOneStep(old(Sessions()), r.fd);
          CloseSocket(r.fd);
          EraseSession(r.fd);
        }
        return;
      }
      ok := r.fd in sockMap;
      if ok && r.readable {
        var total, bytes := Forward(r.job);
        sent := sent + [Downstream(sockMap[r.fd], r.fd, r.job, bytes)];
      }
    }

    method UpdateForForward(orders: seq<Order>) returns (ok: bool)
      requires Valid()
      modifies this, center, group
      ensures Valid() && (View(), ok) == AfterOrders(old(View()), orders)
    {
      hide AfterOrder, Next, Paired;
      ok := true;
      for i := 0 to |orders|
        invariant ok && Valid() && (View(), ok) == AfterOrders(old(View()), orders[..i])
      {
        assert orders[..i + 1][..i] == orders[..i];
        var o := orders[i];
        ok := ForwardOne(o);
        if !ok {
          AbandonedOrders(old(View()), orders, i + 1);
          return;
        }
      }
      assert orders[..|orders|] == orders;
    }

    method UpdateForWait(reports: seq<Report>) returns (ok: bool)
      requires Valid()
      modifies this
      ensures Valid() && (View(), ok) == AfterReports(old(View()), reports)
    {
      ok := true;
      for i := 0 to |reports|
        invariant ok && Valid() && (View(), ok) == AfterReports(old(View()), reports[..i])
      {
        assert reports[..i + 1][..i] == reports[..i];
        ok := ReportOne(reports[i]);
        if !ok {
          AbandonedReports(old(View()), reports, i + 1);
          return;
        }
      }
      assert reports[..|reports|] == reports;
    }
  }
}
