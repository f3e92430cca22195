/** What the benchmark client keeps between events, over every run: live clients sit in one
    window of consecutive descriptors, hence in slots of their own, and each one's mask is
    exactly what epoll watches for it. */
module BenchInvariant {
  import opened Basics
  import opened BenchModel
  import opened DivMod

  /** A live client between events: in the window, in its own slot, registered for exactly one
      event, which is reading iff its whole request has been sent, and with receive room. */
  ghost predicate LiveClient(g: Config, epoll: map<int, Mask>, i: nat, c: Client)
    requires g.Sane()
  {
    && g.base <= c.fd < g.base + g.slots
    && Slot(g, c.fd) == i
    && c.fd in epoll && epoll[c.fd] == c.mask
    && c.mask.read != c.mask.write
    && c.sentLen <= c.sendLen && c.sendLen > 0
    && (c.mask.read <==> c.sentLen == c.sendLen)
    && c.recvLen <= MAX_RECV_BUF_LEN
  }

  /** Slots that are not vacant hold live clients, and every registered descriptor is in one. */
  ghost predicate Slotted(g: Config, clients: seq<Client>, epoll: map<int, Mask>)
    requires g.Sane()
  {
    && |clients| == g.slots
    && (forall i :: 0 <= i < g.slots && clients[i].fd != -1 ==> LiveClient(g, epoll, i, clients[i]))
    && (forall fd :: fd in epoll ==> clients[Slot(g, fd)].fd == fd >= 0)
  }

  ghost predicate Tidy(g: Config, w: World)
    requires g.Sane()
    ensures Tidy(g, w) ==> |w.clients| == g.slots && w.badOps == 0 && w.done <= g.need
  {
    && Slotted(g, w.clients, w.epoll)
    && w.open == Below(g.base) + w.epoll.Keys
    && w.live == |w.epoll| <= g.slots
    && w.badOps == 0
    && w.done <= g.need
  }

  /** Tidy until the process exits. */
  ghost predicate Valid(g: Config, w: World)
    requires g.Sane()
  {
    |w.clients| == g.slots && (!w.exited ==> Tidy(g, w))
  }

  /** The client in slot `i` is live. */
  ghost predicate IsLive(g: Config, w: World, i: nat)
    requires g.Sane()
    ensures IsLive(g, w, i) ==> i < |w.clients|
  {
    i < |w.clients| && w.clients[i].fd != -1 && LiveClient(g, w.epoll, i, w.clients[i])
  }

  /** Every registration but the one of `fd` is as it was. */
  ghost predicate OthersKept(e: map<int, Mask>, e': map<int, Mask>, fd: int) {
    forall f :: f in e && f != fd ==> f in e' && e'[f] == e[f]
  }

  /** A client put into its slot, new or in place of itself, with its registration. */
  lemma SlotPut(g: Config, clients: seq<Client>, epoll: map<int, Mask>, i: nat, c: Client)
    requires g.Sane() && Slotted(g, clients, epoll) && i < g.slots
    requires clients[i].fd == -1 || clients[i].fd == c.fd
    requires LiveClient(g, epoll[c.fd := c.mask], i, c)
    ensures Slotted(g, clients[i := c], epoll[c.fd := c.mask])
    ensures OthersKept(epoll, epoll[c.fd := c.mask], c.fd)
  {
    hide Slot;
    forall j | 0 <= j < g.slots && j != i && clients[j].fd != -1
      ensures clients[j].fd != c.fd && LiveClient(g, epoll[c.fd := c.mask], j, clients[j])
    {
      assert LiveClient(g, epoll, j, clients[j]);
    }
    forall fd | fd in epoll && fd != c.fd ensures Slot(g, fd) != i {
      assert clients[Slot(g, fd)].fd == fd;
    }
  }

  lemma SlotClear(g: Config, clients: seq<Client>, epoll: map<int, Mask>, i: nat)
    requires g.Sane() && Slotted(g, clients, epoll) && i < g.slots && clients[i].fd != -1
    ensures Slotted(g, clients[i := clients[i].(fd := -1)], epoll - {clients[i].fd})
    ensures OthersKept(epoll, epoll - {clients[i].fd}, clients[i].fd)
  {
    hide Slot;
    var fd, e := clients[i].fd, epoll - {clients[i].fd};
    assert LiveClient(g, epoll, i, clients[i]);
    forall j | 0 <= j < g.slots && j != i && clients[j].fd != -1
      ensures clients[j].fd != fd && LiveClient(g, e, j, clients[j])
    {
      assert LiveClient(g, epoll, j, clients[j]);
    }
    forall f | f in e ensures Slot(g, f) != i {
      assert clients[Slot(g, f)].fd == f;
    }
  }

  // ----- slots never collide -----

  /** With a client missing, the lowest free descriptor lies in the window, in a vacant slot. */
  lemma LowestFitsWindow(g: Config, w: World, fd: int)
    requires g.Sane() && Tidy(g, w) && w.live < g.slots && LowestFree(w.open, fd)
    ensures g.base <= fd < g.base + g.slots && w.clients[Slot(g, fd)].fd == -1
  {
    WindowHasRoom(g, w, fd);
    var i := Slot(g, fd);
    if w.clients[i].fd != -1 {
      assert LiveClient(g, w.epoll, i, w.clients[i]);
      WindowInjective(g.base, g.slots, fd, w.clients[i].fd);
      assert false;
    }
  }

  lemma WindowHasRoom(g: Config, w: World, fd: int)
    requires g.Sane() && Tidy(g, w) && w.live < g.slots && LowestFree(w.open, fd)
    ensures g.base <= fd < g.base + g.slots
  {
    hide Slotted;
    assert fd >= g.base by {
      assert fd < g.base ==> fd in Below(g.base);
    }
    var taken := Below(fd) - Below(g.base);
    assert Below(fd) == taken + Below(g.base);
    forall k | k in taken ensures k in w.epoll.Keys {
      assert k in w.open && k !in Below(g.base);
    }
    SubsetSize(taken, w.epoll.Keys);
  }

  lemma SubsetSize(a: set<int>, b: set<int>)
    requires a <= b
    ensures |a| <= |b|
    ensures |a| == |b| ==> a == b
  {
    assert b == a + (b - a);
    if |a| == |b| {
      assert |b - a| == 0;
    }
  }

  lemma OneFdPerSlot(g: Config, w: World, a: int, b: int)
    requires g.Sane() && Tidy(g, w) && a in w.epoll && b in w.epoll && Slot(g, a) == Slot(g, b)
    ensures a == b
  {
    hide Slot, LiveClient, Below;
    assert w.clients[Slot(g, a)].fd == a && w.clients[Slot(g, b)].fd == b;
  }

  lemma OccupiedIsEpoll(g: Config, w: World)
    requires g.Sane() && Tidy(g, w)
    ensures Occupied(w.clients) == w.epoll.Keys && w.live == |w.epoll.Keys|
  {
    hide Slot, Below;
    forall fd ensures fd in Occupied(w.clients) <==> fd in w.epoll.Keys {
      if fd in w.epoll {
        assert w.clients[Slot(g, fd)].fd == fd;
      }
    }
    assert |w.epoll| == |w.epoll.Keys|;
  }

  /** No two live clients share a slot, and the live counter counts the occupied slots. */
  lemma SlotsInjective(g: Config, w: World)
    requires g.Sane() && Tidy(g, w)
    ensures forall a, b :: a in w.epoll && b in w.epoll && Slot(g, a) == Slot(g, b) ==> a == b
    ensures |Occupied(w.clients)| == w.live <= g.slots
  {
    hide Tidy, Slot;
    forall a, b | a in w.epoll && b in w.epoll && Slot(g, a) == Slot(g, b) ensures a == b {
      OneFdPerSlot(g, w, a, b);
    }
    OccupiedIsEpoll(g, w);
    AtMostAll(g, w);
  }

  lemma AtMostAll(g: Config, w: World)
    requires g.Sane() && Tidy(g, w)
    ensures w.live == |w.epoll.Keys| <= g.slots
  {
    hide Slot, Slotted, Below;
    assert |w.epoll| == |w.epoll.Keys|;
  }

  /** The descriptors in the slots. */
  function Occupied(clients: seq<Client>): set<int> {
    set i | 0 <= i < |clients| && clients[i].fd != -1 :: clients[i].fd
  }

  /** With all clients alive, no slot is vacant. */
  lemma FullLeavesNoVacancy(g: Config, w: World, i: nat)
    requires g.Sane() && Tidy(g, w) && w.live == g.slots && i < g.slots
    ensures IsLive(g, w, i)
  {
    hide Tidy, LiveClient;
    var window := Below(g.base + g.slots) - Below(g.base);
    assert Below(g.base + g.slots) == window + Below(g.base);
    InWindow(g, w);
    AtMostAll(g, w);
    SubsetSize(w.epoll.Keys, window);
    var fd := WindowSurjective(g.base, g.slots, i);
    assert fd in window;
    RegisteredIsLive(g, w, fd);
  }

  lemma InWindow(g: Config, w: World)
    requires g.Sane() && Tidy(g, w)
    ensures forall fd :: fd in w.epoll ==> g.base <= fd < g.base + g.slots
  {
    hide Tidy, Slot;
    forall fd | fd in w.epoll ensures g.base <= fd < g.base + g.slots {
      RegisteredIsLive(g, w, fd);
    }
  }

  // ----- every handler keeps the invariant -----

  /** A registered descriptor belongs to the live client in its slot. */
  lemma RegisteredIsLive(g: Config, w: World, fd: int)
    requires g.Sane() && Tidy(g, w) && fd in w.epoll
    ensures IsLive(g, w, Slot(g, fd)) && w.clients[Slot(g, fd)].fd == fd
  {
    hide Slot;
    assert w.clients[Slot(g, fd)].fd == fd;
  }

  lemma OccupiedIsLive(g: Config, w: World, i: nat)
    requires g.Sane() && Tidy(g, w) && i < g.slots && w.clients[i].fd != -1
    ensures IsLive(g, w, i)
  {
    hide Slot;
  }

  /** What a live client's mask says about it. */
  lemma LiveFacts(g: Config, w: World, i: nat)
    requires g.Sane() && IsLive(g, w, i)
    ensures
      var c := w.clients[i];
      && c.fd in w.epoll && w.epoll[c.fd] == c.mask
      && c.mask.read != c.mask.write
      && c.sentLen <= c.sendLen
      && (c.mask.read <==> c.sentLen == c.sendLen)
      && c.recvLen <= MAX_RECV_BUF_LEN
      && c.fd >= g.base
  {
    hide Slot;
  }

  /** Progress counters do not matter, as long as no more is done than needed. */
  lemma CountersTidy(g: Config, w: World, done: nat, fails: nat, running: bool, i: nat)
    requires g.Sane() && Tidy(g, w) && IsLive(g, w, i) && done <= g.need
    ensures
      var w' := w.(done := done, fails := fails, running := running);
      Tidy(g, w') && IsLive(g, w', i)
  {
    hide Slot, Slotted, LiveClient;
  }

  lemma CreateTidy(g: Config, w: World, a: Creation)
    requires g.Sane() && Tidy(g, w) && w.live < g.slots
    ensures Tidy(g, ClientCreated(g, w, a)) && OthersKept(w.epoll, ClientCreated(g, w, a).epoll, -1)
    ensures ClientCreated(g, w, a).live == w.live + if Creates(w, a) then 1 else 0
    ensures ClientCreated(g, w, a).exited == w.exited
  {
    hide Slot, Slotted, ClientCreated;
    CreateIs(g, w, a);
    if Creates(w, a) {
      PlacedTidy(g, w, a.fd, a.len);
    }
  }

  /** A fresh client in its slot, registered for writing. */
  function Placed(g: Config, w: World, fd: int, len: nat): World
    requires g.Sane() && |w.clients| == g.slots
  {
    var c := Client(fd, Only(Writeable), 0, 0, len);
    w.(clients := w.clients[Slot(g, fd) := c], epoll := w.epoll[fd := c.mask],
       open := w.open + {fd}, live := w.live + 1)
  }

  lemma CreateIs(g: Config, w: World, a: Creation)
    requires g.Sane() && |w.clients| == g.slots && w.epoll.Keys <= w.open
    ensures ClientCreated(g, w, a) == if Creates(w, a) then Placed(g, w, a.fd, a.len) else w
  {
    hide Slot;
    if Creates(w, a) {
      assert a.fd !in w.epoll;
    }
  }

  lemma PlacedTidy(g: Config, w: World, fd: int, len: nat)
    requires g.Sane() && Tidy(g, w) && w.live < g.slots && LowestFree(w.open, fd) && len > 0
    ensures Tidy(g, Placed(g, w, fd, len)) && OthersKept(w.epoll, Placed(g, w, fd, len).epoll, -1)
  {
    hide Slot, Slotted, LowestFree, Below;
    PlacedSlotted(g, w, fd, len);
    MapSizes(w.epoll, fd, Only(Writeable));
    assert w.open + {fd} == Below(g.base) + (w.epoll.Keys + {fd});
  }

  lemma PlacedSlotted(g: Config, w: World, fd: int, len: nat)
    requires g.Sane() && Tidy(g, w) && w.live < g.slots && LowestFree(w.open, fd) && len > 0
    ensures Slotted(g, Placed(g, w, fd, len).clients, Placed(g, w, fd, len).epoll)
    ensures fd !in w.epoll && fd >= 0
  {
    hide Slot, Slotted, Below;
    LowestFitsWindow(g, w, fd);
    var c := Client(fd, Only(Writeable), 0, 0, len);
    assert fd !in w.epoll;
    SlotPut(g, w.clients, w.epoll, Slot(g, fd), c);
  }

  lemma CloseTidy(g: Config, w: World, i: nat)
    requires g.Sane() && Tidy(g, w) && IsLive(g, w, i)
    ensures Tidy(g, ConnectionClosed(w, i)) && ConnectionClosed(w, i).live < g.slots
    ensures OthersKept(w.epoll, ConnectionClosed(w, i).epoll, w.clients[i].fd)
  {
    hide Slot, Slotted, LiveClient;
    var fd := w.clients[i].fd;
    LiveFacts(g, w, i);
    SlotClear(g, w.clients, w.epoll, i);
    MapSizes(w.epoll, fd, ENONE);
    assert w.open - {fd} == Below(g.base) + (w.epoll.Keys - {fd});
  }

  lemma ReplaceTidy(g: Config, w: World, i: nat, a: Creation)
    requires g.Sane() && Tidy(g, w) && IsLive(g, w, i)
    ensures Tidy(g, Replaced(g, w, i, a)) && Replaced(g, w, i, a).exited == w.exited
    ensures OthersKept(w.epoll, Replaced(g, w, i, a).epoll, w.clients[i].fd)
  {
    hide Tidy, IsLive, Slot, ClientCreated;
    CloseTidy(g, w, i);
    var w' := ConnectionClosed(w, i);
    CreateTidy(g, w', a);
    forall f | f in w.epoll && f != w.clients[i].fd
      ensures f in Replaced(g, w, i, a).epoll && Replaced(g, w, i, a).epoll[f] == w.epoll[f]
    {
      assert f in w'.epoll && f != -1 by { NoNegative(g, w, f); }
    }
  }

  lemma NoNegative(g: Config, w: World, fd: int)
    requires g.Sane() && Tidy(g, w) && fd in w.epoll
    ensures fd >= 0
  {
    hide Slot;
  }

  /** Changing a live client in place, together with its registration. */
  lemma UpdateTidy(g: Config, w: World, i: nat, c: Client)
    requires g.Sane() && Tidy(g, w) && IsLive(g, w, i) && c.fd == w.clients[i].fd
    requires LiveClient(g, w.epoll[c.fd := c.mask], i, c)
    ensures
      var w' := w.(clients := w.clients[i := c], epoll := w.epoll[c.fd := c.mask]);
      Tidy(g, w') && IsLive(g, w', i) && OthersKept(w.epoll, w'.epoll, c.fd)
  {
    hide Slot, Slotted, LiveClient;
    LiveFacts(g, w, i);
    SlotPut(g, w.clients, w.epoll, i, c);
    MapSizes(w.epoll, c.fd, c.mask);
    assert w.epoll[c.fd := c.mask].Keys == w.epoll.Keys;
  }

  function Only(e: Event): Mask { ENONE.Set(e, true) }

  /** Swapping a client's one event for the other deletes and adds, each the right way. */
  lemma SwitchTo(w: World, i: nat, was: Event, e: Event)
    requires i < |w.clients| && was != e
    requires w.clients[i].fd in w.epoll && w.clients[i].mask.read != w.clients[i].mask.write
    ensures
      var c := w.clients[i].(mask := Only(e));
      EventAdded(EventDeleted(w, i, was), i, e) == w.(clients := w.clients[i := c], epoll := w.epoll[c.fd := Only(e)])
  {
    var c := w.clients[i];
    assert (w.epoll - {c.fd})[c.fd := Only(e)] == w.epoll[c.fd := Only(e)];
  }

  /** A reset client is what a new one on its descriptor would be. */
  lemma ResetTidy(g: Config, w: World, i: nat, len: Option<nat>)
    requires g.Sane() && Tidy(g, w) && IsLive(g, w, i)
    ensures Tidy(g, ClientReset(w, i, len)) && IsLive(g, ClientReset(w, i, len), i)
    ensures ClientReset(w, i, len).exited == w.exited
    ensures var c := ClientReset(w, i, len).clients[i];
      c == Client(w.clients[i].fd, Only(Writeable), 0, 0, c.sendLen)
    ensures OthersKept(w.epoll, ClientReset(w, i, len).epoll, w.clients[i].fd)
  {
    hide Tidy, Slot;
    SwitchTo(w, i, Readable, Writeable);
    var c := w.clients[i].(mask := Only(Writeable), recvLen := 0, sentLen := 0,
      sendLen := if len.Some? && len.value > 0 then len.value else w.clients[i].sendLen);
    assert ClientReset(w, i, len) == w.(clients := w.clients[i := c], epoll := w.epoll[c.fd := c.mask]);
    UpdateTidy(g, w, i, c);
  }

  lemma ReceivedTidy(g: Config, w: World, i: nat, n: nat)
    requires g.Sane() && Tidy(g, w) && IsLive(g, w, i) && n <= MAX_RECV_BUF_LEN
    ensures
      var w' := w.(clients := w.clients[i := w.clients[i].(recvLen := n)]);
      Tidy(g, w') && IsLive(g, w', i)
  {
    hide Tidy, Slot;
    var c := w.clients[i].(recvLen := n);
    assert w.epoll[c.fd := c.mask] == w.epoll;
    UpdateTidy(g, w, i, c);
  }

  lemma RecvTidy(g: Config, w: World, i: nat, a: Answers)
    requires g.Sane() && Tidy(g, w) && !w.exited && IsLive(g, w, i) && w.clients[i].mask.read
    ensures Valid(g, AfterRecv(g, w, i, a))
    ensures AfterRecv(g, w, i, a).exited || OthersKept(w.epoll, AfterRecv(g, w, i, a).epoll, w.clients[i].fd)
  {
    hide Tidy, LiveClient, Slot, Replaced, Received;
    match a.io
    case WouldBlock =>
    case Broken => ReplaceTidy(g, w, i, a.creation);
    case Bytes(n) => BytesTidy(g, w, i, n, a);
  }

  lemma BytesTidy(g: Config, w: World, i: nat, n: nat, a: Answers)
    requires g.Sane() && Tidy(g, w) && !w.exited && IsLive(g, w, i)
    ensures Valid(g, Received(g, w, i, n, a))
    ensures Received(g, w, i, n, a).exited || OthersKept(w.epoll, Received(g, w, i, n, a).epoll, w.clients[i].fd)
  {
    hide Tidy, IsLive, OthersKept, Slot, Decoded;
    LiveFacts(g, w, i);
    var c := w.clients[i];
    var got := c.recvLen + Clamp(n, RECV_BUF_SIZE - c.recvLen);
    if got <= MAX_RECV_BUF_LEN {
      ReceivedTidy(g, w, i, got);
      DecodedTidy(g, w.(clients := w.clients[i := c.(recvLen := got)]), i, a);
    }
  }

  lemma DecodedTidy(g: Config, w: World, i: nat, a: Answers)
    requires g.Sane() && Tidy(g, w) && IsLive(g, w, i)
    ensures Tidy(g, Decoded(g, w, i, a)) && Decoded(g, w, i, a).exited == w.exited
    ensures OthersKept(w.epoll, Decoded(g, w, i, a).epoll, w.clients[i].fd)
  {
    hide Tidy, LiveClient, Slot, Replaced, AfterDone;
    if a.decode < 0 {
      ReplaceTidy(g, w, i, a.creation);
    } else if a.decode != 1 {
      var done := if w.done < g.need then w.done + 1 else w.done;
      CountersTidy(g, w, done, w.fails, w.running, i);
      DoneTidy(g, w.(done := done), i, a);
    }
  }

  lemma DoneTidy(g: Config, w: World, i: nat, a: Answers)
    requires g.Sane() && Tidy(g, w) && IsLive(g, w, i)
    ensures Tidy(g, AfterDone(g, w, i, a)) && AfterDone(g, w, i, a).exited == w.exited
    ensures OthersKept(w.epoll, AfterDone(g, w, i, a).epoll, w.clients[i].fd)
  {
    hide Tidy, LiveClient, Slot, Replaced, ClientReset;
    if w.done == g.need {
      CountersTidy(g, w, w.done, w.fails, false, i);
    } else if g.reuse {
      ResetTidy(g, w, i, a.len);
    } else {
      ReplaceTidy(g, w, i, a.creation);
    }
  }

  lemma SentTidy(g: Config, w: World, i: nat, n: nat)
    requires g.Sane() && Tidy(g, w) && IsLive(g, w, i) && w.clients[i].mask.write
    requires n <= w.clients[i].sendLen
    ensures
      var c := w.clients[i].(sentLen := n);
      var w' := w.(clients := w.clients[i := c]);
      var w'' := if n == c.sendLen then EventAdded(EventDeleted(w', i, Writeable), i, Readable) else w';
      Tidy(g, w'') && OthersKept(w.epoll, w''.epoll, c.fd) && w''.exited == w.exited
  {
    hide Tidy, Slot;
    var c := w.clients[i].(sentLen := n);
    if n == c.sendLen {
      SwitchTo(w.(clients := w.clients[i := c]), i, Writeable, Readable);
      c := c.(mask := Only(Readable));
      assert w.clients[i := w.clients[i].(sentLen := n)][i := c] == w.clients[i := c];
    } else {
      assert w.epoll[c.fd := c.mask] == w.epoll;
    }
    UpdateTidy(g, w, i, c);
  }

  lemma SendTidy(g: Config, w: World, i: nat, a: Answers)
    requires g.Sane() && Tidy(g, w) && IsLive(g, w, i) && w.clients[i].mask.write
    ensures Tidy(g, AfterSend(g, w, i, a)) && AfterSend(g, w, i, a).exited == w.exited
    ensures OthersKept(w.epoll, AfterSend(g, w, i, a).epoll, w.clients[i].fd)
  {
    hide Tidy, IsLive, Slot, Replaced, EventAdded, EventDeleted;
    LiveFacts(g, w, i);
    match a.io
    case WouldBlock =>
    case Broken => ReplaceTidy(g, w, i, a.creation);
    case Bytes(n) =>
      var c := w.clients[i];
      SentTidy(g, w, i, c.sentLen + Clamp(n, c.sendLen - c.sentLen));
  }

  // ----- whole runs -----

  /** What `epoll_wait` can report: registered descriptors, with events they are watched for. */
  ghost predicate Reportable(w: World, r: Report) {
    r.fd in w.epoll && forall e :: r.events.Has(e) ==> w.epoll[r.fd].Has(e)
  }

  lemma ErrorTidy(g: Config, w: World, i: nat, a: Answers)
    requires g.Sane() && Tidy(g, w) && !w.exited && IsLive(g, w, i)
    ensures Valid(g, HandledError(g, w, i, a))
    ensures HandledError(g, w, i, a).exited || OthersKept(w.epoll, HandledError(g, w, i, a).epoll, w.clients[i].fd)
  {
    hide Tidy, LiveClient, Slot, Replaced;
    if w.fails + 1 <= MAX_FAIL_COUNT {
      CountersTidy(g, w, w.done, w.fails + 1, w.running, i);
      ReplaceTidy(g, w.(fails := w.fails + 1), i, a.creation);
    }
  }

  lemma HandledTidy(g: Config, w: World, r: Report)
    requires g.Sane() && Tidy(g, w) && Reportable(w, r)
    ensures Valid(g, Handled(g, w, r))
    ensures Handled(g, w, r).exited || OthersKept(w.epoll, Handled(g, w, r).epoll, r.fd)
  {
    hide Tidy, LiveClient, Slot, HandledError, AfterRecv, AfterSend;
    var i := Slot(g, r.fd);
    RegisteredIsLive(g, w, r.fd);
    LiveFacts(g, w, i);
    if w.exited {
    } else if r.error {
      ErrorTidy(g, w, i, r.answers);
    } else if r.events.Has(Readable) {
      assert !r.events.Has(Writeable);
      RecvTidy(g, w, i, r.answers);
    } else if r.events.Has(Writeable) {
      SendTidy(g, w, i, r.answers);
    }
  }

  /** One wait: distinct descriptors, each reportable when the wait returned. */
  ghost predicate Batch(w: World, reports: seq<Report>) {
    && (forall k :: 0 <= k < |reports| ==> Reportable(w, reports[k]))
    && (forall j, k :: 0 <= j < k < |reports| ==> reports[j].fd != reports[k].fd)
  }

  /** Clients closed and created while a batch is handled leave the rest of it reportable. */
  lemma {:induction false} BatchTidy(g: Config, w: World, reports: seq<Report>)
    requires g.Sane() && Tidy(g, w) && Batch(w, reports)
    ensures
      var w' := HandledAll(g, w, reports);
      && Valid(g, w')
      && (w'.exited || forall f :: f in w.epoll && (forall k :: 0 <= k < |reports| ==> reports[k].fd != f) ==>
            f in w'.epoll && w'.epoll[f] == w.epoll[f])
  {
    hide Tidy, LiveClient, Slot, Handled;
    if |reports| > 0 {
      var front, last := reports[..|reports| - 1], reports[|reports| - 1];
      BatchTidy(g, w, front);
      var m := HandledAll(g, w, front);
      if !m.exited {
        assert Reportable(m, last);
        HandledTidy(g, m, last);
      }
    }
  }

  lemma StaysReportable(g: Config, w: World, reports: seq<Report>, k: nat)
    requires g.Sane() && Tidy(g, w) && Batch(w, reports) && k < |reports|
    ensures
      var m := HandledAll(g, w, reports[..k]);
      m.exited || (Tidy(g, m) && Reportable(m, reports[k]))
  {
    hide Tidy;
    assert Batch(w, reports[..k]);
    BatchTidy(g, w, reports[..k]);
  }

  lemma {:induction false} CreateNeedTidy(g: Config, w: World, answers: seq<Creation>)
    requires g.Sane() && Valid(g, w)
    ensures Valid(g, AllCreated(g, w, answers))
    ensures !AllCreated(g, w, answers).exited ==> AllCreated(g, w, answers).live == g.slots
    decreases |answers|
  {
    hide LiveClient, Slot, ClientCreated;
    if !w.exited && w.live < g.slots && |answers| > 0 {
      CreateTidy(g, w, answers[0]);
      var w' := ClientCreated(g, w, answers[0]);
      if w'.live > w.live {
        CreateNeedTidy(g, w', answers[1..]);
      }
    }
  }

  lemma {:induction false} TimeoutsTidy(g: Config, w: World, expired: set<nat>, len: Option<nat>, n: nat)
    requires g.Sane() && Tidy(g, w) && n <= g.slots
    ensures Tidy(g, TimeoutsCleared(w, expired, len, n))
    ensures TimeoutsCleared(w, expired, len, n).exited == w.exited
  {
    hide Tidy, LiveClient, Slot, ClientReset;
    if n > 0 {
      TimeoutsTidy(g, w, expired, len, n - 1);
      var w' := TimeoutsCleared(w, expired, len, n - 1);
      if w'.clients[n - 1].fd > 0 && n - 1 in expired {
        OccupiedIsLive(g, w', n - 1);
        ResetTidy(g, w', n - 1, len);
      }
    }
  }

  /** A round of the main loop, or the periodic check; one with an impossible batch stutters. */
  datatype Round = Wait(reports: seq<Report>) | Check(expired: set<nat>, len: Option<nat>, answers: seq<Creation>)

  ghost function Next(g: Config, w: World, r: Round): (w': World)
    requires g.Sane() && |w.clients| == g.slots
    ensures |w'.clients| == g.slots
  {
    if w.exited then w
    else match r
      case Wait(reports) => if Batch(w, reports) then HandledAll(g, w, reports) else w
      case Check(expired, len, answers) =>
        AllCreated(g, TimeoutsCleared(w, expired, len, g.slots), answers)
  }

  /** Starting up fills all slots; then the rounds follow. */
  ghost function Run(g: Config, first: seq<Creation>, rounds: seq<Round>): (w: World)
    requires g.Sane()
    ensures |w.clients| == g.slots
  {
    if |rounds| == 0 then AllCreated(g, Start(g), first)
    else Next(g, Run(g, first, rounds[..|rounds| - 1]), rounds[|rounds| - 1])
  }

  lemma StartTidy(g: Config)
    requires g.Sane()
    ensures Tidy(g, Start(g))
  {
    hide Slot;
    assert Start(g).epoll.Keys == {};
  }

  lemma NextValid(g: Config, w: World, r: Round)
    requires g.Sane() && Valid(g, w)
    ensures Valid(g, Next(g, w, r))
  {
    hide Tidy, HandledAll, AllCreated, TimeoutsCleared;
    if !w.exited {
      match r
      case Wait(reports) => if Batch(w, reports) { BatchTidy(g, w, reports); }
      case Check(expired, len, answers) =>
        TimeoutsTidy(g, w, expired, len, g.slots);
        CreateNeedTidy(g, TimeoutsCleared(w, expired, len, g.slots), answers);
    }
  }

  /** In every reachable state until the process exits: all live clients are in one window of
      consecutive descriptors and in slots of their own, every mask has one bit and is what
      epoll watches, no epoll operation was of the wrong kind, reading means the request is
      out, receive buffers have room, and no more requests are done than are needed. */
  lemma {:induction false} AlwaysValid(g: Config, first: seq<Creation>, rounds: seq<Round>)
    requires g.Sane()
    ensures Valid(g, Run(g, first, rounds))
  {
    hide Tidy, Next, AllCreated;
    if |rounds| == 0 {
      StartTidy(g);
      CreateNeedTidy(g, Start(g), first);
    } else {
      AlwaysValid(g, first, rounds[..|rounds| - 1]);
      NextValid(g, Run(g, first, rounds[..|rounds| - 1]), rounds[|rounds| - 1]);
    }
  }
}
