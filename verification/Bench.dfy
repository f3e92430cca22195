/** The benchmark client as the program has it: global counters, an array of clients, and
    handlers that update both in place (benchmark/benchmark.cpp). */
module Benchmark {
  import opened Basics
  import opened BenchModel
  import opened BenchInvariant
  import BenchOutcome

  class Bench {
    const g: Config
    const clients: array<Client>
    const latency: array<int>     // one entry per request that counts
    var epoll: map<int, Mask>
    var open: set<int>
    var live: int
    var done: nat
    var running: bool
    var exited: bool
    var fails: nat
    var badOps: nat

    predicate Shape() {
      g.Sane() && clients.Length == g.slots && latency.Length == g.need
    }

    ghost function View(): World
      reads this, clients
    {
      World(clients[..], epoll, open, live, done, running, exited, fails, badOps)
    }

    constructor (g: Config)
      requires g.Sane()
      ensures Shape() && this.g == g && View() == Start(g)
      ensures fresh(clients) && fresh(latency)
    {
      this.g := g;
      clients := new Client[g.slots](_ => VACANT);
      latency := new int[g.need];
      epoll, open, live, done := map[], Below(g.base), 0, 0;
      running, exited, fails, badOps := true, false, 0, 0;
    }

    /** EPOLL_CTL_ADD needs an unregistered descriptor, MOD and DEL a registered one. */
    method AddEvent(i: nat, e: Event)
      requires Shape() && i < clients.Length
      modifies this`epoll, this`badOps, clients
      ensures View() == EventAdded(old(View()), i, e)
    {
      var c := clients[i];
      var add := c.mask == ENONE;
      clients[i] := c.(mask := c.mask.Set(e, true));
      if add == (c.fd !in epoll) {
        epoll := epoll[c.fd := clients[i].mask];
      } else {
        badOps := badOps + 1;
      }
    }

    method DelEvent(i: nat, e: Event)
      requires Shape() && i < clients.Length
      modifies this`epoll, this`badOps, clients
      ensures View() == EventDeleted(old(View()), i, e)
    {
      var c := clients[i];
      clients[i] := c.(mask := c.mask.Set(e, false));
      if c.fd !in epoll {
        badOps := badOps + 1;
      } else if clients[i].mask == ENONE {
        epoll := epoll - {c.fd};
      } else {
        epoll := epoll[c.fd := clients[i].mask];
      }
    }

    method CloseConnection(i: nat)
      requires Shape() && i < clients.Length
      modifies this`epoll, this`open, this`live, this`badOps, clients
      ensures View() == ConnectionClosed(old(View()), i)
    {
      var fd := clients[i].fd;
      if fd !in epoll {
        badOps := badOps + 1;
      }
      epoll := epoll - {fd};
      open := open - {fd};
      clients[i] := clients[i].(fd := -1);
      live := live - 1;
    }

    method CreateClient(a: Creation) returns (ok: bool)
      requires Shape()
      modifies this`epoll, this`open, this`live, this`badOps, clients
      ensures View() == ClientCreated(g, old(View()), a)
      ensures ok <==> live > old(live)
    {
      if !(a.Created? && a.len > 0 && LowestFree(open, a.fd)) {
        return false;
      }
      var i := Slot(g, a.fd);
      clients[i] := Client(a.fd, ENONE, 0, 0, a.len);
      var before := badOps;
      AddEvent(i, Writeable);
      if badOps > before {
        return false;
      }
      open := open + {a.fd};
      live := live + 1;
      ok := true;
    }

    method ResetClient(i: nat, len: Option<nat>)
      requires Shape() && i < clients.Length
      modifies this`epoll, this`badOps, clients
      ensures View() == ClientReset(old(View()), i, len)
    {
      DelEvent(i, Readable);
      AddEvent(i, Writeable);
      clients[i] := clients[i].(recvLen := 0, sentLen := 0);
      if len.Some? && len.value > 0 {
        clients[i] := clients[i].(sendLen := len.value);
      }
    }

    method ClientDone(i: nat, a: Answers)
      requires Shape() && i < clients.Length
      modifies this`epoll, this`open, this`live, this`badOps, this`running, clients
      ensures View() == AfterDone(g, old(View()), i, a)
    {
      if done == g.need {
        running := false;
      } else if g.reuse {
        ResetClient(i, a.len);
      } else {
        CloseConnection(i);
        var _ := CreateClient(a.creation);
      }
    }

    method RecvFromServer(i: nat, a: Answers, elapsed: int)
      requires Shape() && i < clients.Length && clients[i].recvLen <= MAX_RECV_BUF_LEN
      modifies this, clients, latency
      ensures View() == AfterRecv(g, old(View()), i, a)
      ensures old(done) < done ==> done == old(done) + 1 <= latency.Length && latency[old(done)] == elapsed
      ensures forall k :: 0 <= k < old(done) && k < latency.Length ==> latency[k] == old(latency[k])
    {
      hide ConnectionClosed, ClientCreated, Decoded;
      match a.io
      case WouldBlock =>
      case Broken =>
        CloseConnection(i);
        var _ := CreateClient(a.creation);
      case Bytes(n) =>
        var received := Clamp(n, RECV_BUF_SIZE - clients[i].recvLen);
        clients[i] := clients[i].(recvLen := clients[i].recvLen + received);
        if clients[i].recvLen > MAX_RECV_BUF_LEN {
          exited := true;
          return;
        }
        HandleResponse(i, a, elapsed);
    }

    method HandleResponse(i: nat, a: Answers, elapsed: int)
      requires Shape() && i < clients.Length
      modifies this, clients, latency
      ensures View() == Decoded(g, old(View()), i, a)
      ensures old(done) < done ==> done == old(done) + 1 <= latency.Length && latency[old(done)] == elapsed
      ensures forall k :: 0 <= k < old(done) && k < latency.Length ==> latency[k] == old(latency[k])
    {
      hide ConnectionClosed, ClientCreated, ClientReset, AfterDone;
      if a.decode < 0 {
        CloseConnection(i);
        var _ := CreateClient(a.creation);
        return;
      }
      if a.decode == 1 {
        return;
      }
      if done < g.need {
        latency[done] := elapsed;
        done := done + 1;
      }
      ClientDone(i, a);
    }

    method SendToServer(i: nat, a: Answers)
      requires Shape() && i < clients.Length && clients[i].sentLen <= clients[i].sendLen
      modifies this`epoll, this`open, this`live, this`badOps, clients
      ensures View() == AfterSend(g, old(View()), i, a)
    {
      match a.io
      case WouldBlock =>
      case Broken =>
        CloseConnection(i);
        var _ := CreateClient(a.creation);
      case Bytes(n) =>
        var sended := Clamp(n, clients[i].sendLen - clients[i].sentLen);
        clients[i] := clients[i].(sentLen := clients[i].sentLen + sended);
        if clients[i].sentLen == clients[i].sendLen {
          DelEvent(i, Writeable);
          AddEvent(i, Readable);
        }
    }

    method CreateNeedClients(answers: seq<Creation>)
      requires Shape()
      modifies this, clients
      ensures View() == AllCreated(g, old(View()), answers)
    {
      var left := answers;
      while !exited && live < g.slots
        invariant AllCreated(g, View(), left) == AllCreated(g, old(View()), answers)
        decreases |left|, !exited
      {
        if |left| == 0 {
          exited := true;
        } else {
          var ok := CreateClient(left[0]);
          if !ok {
            exited := true;
          }
          left := left[1..];
        }
      }
    }

    method ClearTimeoutConnection(expired: set<nat>, len: Option<nat>)
      requires Shape()
      modifies this, clients
      ensures View() == TimeoutsCleared(old(View()), expired, len, g.slots)
    {
      for i := 0 to g.slots
        invariant View() == TimeoutsCleared(old(View()), expired, len, i)
      {
        if clients[i].fd > 0 && i in expired {
          ResetClient(i, len);
        }
      }
    }

    /** The events of one `epoll_wait`: the loop of `benchmark`. */
    method HandleEvents(reports: seq<Report>)
      requires Shape() && !exited && Tidy(g, View()) && Batch(View(), reports)
      modifies this, clients, latency
      ensures View() == HandledAll(g, old(View()), reports) && Valid(g, View())
      ensures old(done) <= done <= latency.Length && latency[..old(done)] == old(latency[..done])
      ensures latency[old(done)..done] == BenchOutcome.LatenciesIn(g, old(View()), reports)
    {
      hide Tidy, Batch, Reportable, Handled;
      for k := 0 to |reports|
        invariant View() == HandledAll(g, old(View()), reports[..k])
        invariant old(done) <= done <= latency.Length && latency[..old(done)] == old(latency[..done])
        invariant latency[old(done)..done] == BenchOutcome.LatenciesIn(g, old(View()), reports[..k])
      {
        assert reports[..k + 1][..k] == reports[..k];
        StaysReportable(g, old(View()), reports, k);
        BenchOutcome.StepCounts(g, old(View()), reports, k);
        if !exited {
          ghost var before, was := latency[..], done;
          HandleEvent(reports[k]);
          assert latency[..was] == before[..was];
          assert latency[old(done)..was] == latency[..was][old(done)..] == before[old(done)..was];
          assert latency[..old(done)] == latency[..was][..old(done)];
        }
      }
      assert reports[..|reports|] == reports;
      BatchTidy(g, old(View()), reports);
    }

    method HandleEvent(r: Report)
      requires Shape() && !exited && Tidy(g, View()) && Reportable(View(), r)
      modifies this, clients, latency
      ensures View() == Handled(g, old(View()), r)
      ensures old(done) < done ==> done == old(done) + 1 <= latency.Length && latency[old(done)] == r.elapsed
      ensures forall k :: 0 <= k < old(done) && k < latency.Length ==> latency[k] == old(latency[k])
    {
      hide Tidy, IsLive, Slot, HandledError, AfterRecv, AfterSend;
      var i := Slot(g, r.fd);
      RegisteredIsLive(g, View(), r.fd);
      LiveFacts(g, View(), i);
      if r.error {
        HandleError(i, r.answers);
        return;
      }
      if r.events.Has(Readable) {
        RecvFromServer(i, r.answers, r.elapsed);
      }
      if r.events.Has(Writeable) && !exited {
        SendToServer(i, r.answers);
      }
    }

    method HandleError(i: nat, a: Answers)
      requires Shape() && i < clients.Length
      modifies this`epoll, this`open, this`live, this`badOps, this`fails, this`exited, clients
      ensures View() == HandledError(g, old(View()), i, a)
    {
      hide ConnectionClosed, ClientCreated;
      fails := fails + 1;
      if fails > MAX_FAIL_COUNT {
        exited := true;
      } else {
        CloseConnection(i);
        var _ := CreateClient(a.creation);
      }
    }
  }
}
