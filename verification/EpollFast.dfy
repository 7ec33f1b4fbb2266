/**
 The edge-triggered echo server: every socket is registered once, and an edge is reported only when something changes.

 The program runs against an arbitrary finite script of peer actions, interleaved with its system calls in any way. The
 module proves that it never touches a freed client, keeps every connection an exact echo, and never loses an edge: when
 epoll_wait would block for good, every byte that arrived has been sent back, except where the peer does not take it.
 */
module EpollFast {
  import opened Network
  import opened Syscalls
  import opened EchoStream

  const MAX_EPOLL_EVENTS := 64000

  type Clients = map<nat, ClientState>

  // ---------------------------------------------------------------- invariant

  /** A connection is open and an echo so far; an edge is pending for it, or the server can do nothing for it. */
  predicate ClientOk(c: Conn, unsent: seq<Byte>, edge: bool) {
    Echoes(c, unsent) && !c.eof && (edge || MustWait(c, unsent))
  }

  /** An event for this source is still to be handled. */
  predicate Awaits(pending: seq<Event>, source: Source) {
    exists k | 0 <= k < |pending| :: pending[k].source == source
  }

  /**
   Each event still to be handled is about a live client, at most one about each; a hangup it reports has happened.
   */
  ghost predicate PendingOk(net: Net, clients: Clients, serving: set<nat>, pending: seq<Event>) {
    && (forall j, k | 0 <= j < k < |pending| :: pending[j].source != pending[k].source)
    && (forall k | 0 <= k < |pending| && pending[k].source.Client? ::
          var fd := pending[k].source.fd;
          fd in clients && fd in net.conns && fd !in serving && (pending[k].hangup ==> net.conns[fd].reset))
  }

  /**
   What holds of the network and of the clients in memory. `pending` are the events still to be handled, `accepting`
   says that connections are being accepted; the clients in `serving` are in the middle of something. A client is
   allocated exactly while its socket is open and registered.
   */
  ghost predicate Inv(net: Net, clients: Clients, serving: set<nat>, pending: seq<Event>, accepting: bool) {
    && NetInv(net)
    && clients.Keys == net.accepted == net.watched
    && PendingOk(net, clients, serving, pending)
    && (forall fd | fd in clients :: clients[fd].socket == fd && clients[fd].Valid())
    && (forall fd | fd in clients && fd !in serving ::
          ClientOk(net.conns[fd], clients[fd].Unsent(), Client(fd) in net.ready || Awaits(pending, Client(fd))))
    && (forall fd | fd in net.closed :: EndedWell(net.closed[fd]))
    && (net.backlog != [] ==> Listener in net.ready || Awaits(pending, Listener) || accepting)
  }

  /** Client `fd` is being served. */
  ghost predicate Serving(net: Net, clients: Clients, fd: nat, pending: seq<Event>, accepting: bool) {
    Inv(net, clients, {fd}, pending, accepting) && fd in clients && Echoes(net.conns[fd], clients[fd].Unsent())
  }

  lemma InvMeans(net: Net, clients: Clients, serving: set<nat>, pending: seq<Event>, accepting: bool)
    requires Inv(net, clients, serving, pending, accepting)
    ensures NetInv(net) && clients.Keys == net.accepted == net.watched
    ensures forall fd | fd in clients :: fd in net.conns && clients[fd].socket == fd && clients[fd].Valid()
  {
  }

  /** While others act, a client that is left alone keeps its stream and cannot start to stall. */
  lemma {:induction false} LeftAlone(net: Net, net': Net, served: set<nat>, fd: nat, unsent: seq<Byte>, edge: bool)
    requires Evolves(net, net', served) && fd in net.conns && fd in net.watched && fd !in served
    requires ClientOk(net.conns[fd], unsent, Client(fd) in net.ready || edge)
    ensures fd in net'.conns && ClientOk(net'.conns[fd], unsent, Client(fd) in net'.ready || edge)
    ensures net.conns[fd].reset ==> net'.conns[fd].reset
  {
    assert ConnEvolves(net.conns[fd], net'.conns[fd], Client(fd) in net'.ready || fd !in net.watched);
  }

  lemma OthersLeftAlone(net: Net, net': Net, clients: Clients, serving: set<nat>, pending: seq<Event>, accepting: bool)
    requires Inv(net, clients, serving, pending, accepting) && Evolves(net, net', serving) && NetInv(net')
    ensures Inv(net', clients, serving, pending, accepting)
  {
    forall fd | fd in clients && fd !in serving
      ensures ClientOk(net'.conns[fd], clients[fd].Unsent(), Client(fd) in net'.ready || Awaits(pending, Client(fd)))
      ensures net.conns[fd].reset ==> net'.conns[fd].reset
    {
      LeftAlone(net, net', serving, fd, clients[fd].Unsent(), Awaits(pending, Client(fd)));
    }
  }

  /** Serving client `fd`, and then leaving it as `client` in memory. */
  lemma ServingKeepsInv(net: Net, net': Net, clients: Clients, fd: nat, client: ClientState, pending: seq<Event>,
                        accepting: bool)
    requires Inv(net, clients, {fd}, pending, accepting) && Evolves(net, net', {fd}) && NetInv(net')
    requires fd in clients && client.socket == fd && client.Valid()
    ensures Inv(net', clients[fd := client], {fd}, pending, accepting)
    ensures client == clients[fd] ==> Inv(net', clients, {fd}, pending, accepting)
  {
    OthersLeftAlone(net, net', clients, {fd}, pending, accepting);
  }

  /** What the peers do just before a call is served does not change the stream. */
  lemma StreamKept(net: Net, mid: Net, fd: nat, unsent: seq<Byte>)
    requires Evolves(net, mid, {}) && fd in net.conns
    ensures fd in mid.conns && mid.conns[fd].eof == net.conns[fd].eof
    ensures Echoes(mid.conns[fd], unsent) == Echoes(net.conns[fd], unsent)
  {
    assert ConnEvolves(net.conns[fd], mid.conns[fd], Client(fd) in mid.ready || fd !in net.watched);
  }

  /** Taking up the first of the events that are still to be handled. */
  lemma {:induction false} BeginServing(net: Net, clients: Clients, event: Event, rest: seq<Event>)
    requires Inv(net, clients, {}, [event] + rest, false) && event.source.Client?
    ensures var fd := event.source.fd;
            && Serving(net, clients, fd, rest, false) && !net.conns[fd].eof
            && (event.hangup ==> net.conns[fd].reset)
  {
    var pending, fd := [event] + rest, event.source.fd;
    assert pending[0] == event && forall k | 0 <= k < |rest| :: pending[k + 1] == rest[k];
    forall source | Awaits(pending, source) && source != event.source
      ensures Awaits(rest, source)
    {
      var k :| 0 <= k < |pending| && pending[k].source == source;
      assert rest[k - 1].source == source;
    }
  }

  lemma BeginAccepting(net: Net, clients: Clients, event: Event, rest: seq<Event>)
    requires Inv(net, clients, {}, [event] + rest, false) && event.source.Listener?
    ensures Inv(net, clients, {}, rest, true)
  {
    var pending := [event] + rest;
    assert pending[0] == event && forall k | 0 <= k < |rest| :: pending[k + 1] == rest[k];
    forall source | Awaits(pending, source) && source != event.source
      ensures Awaits(rest, source)
    {
      var k :| 0 <= k < |pending| && pending[k].source == source;
      assert rest[k - 1].source == source;
    }
  }

  lemma ServedKeepsInv(net: Net, clients: Clients, fd: nat, pending: seq<Event>, accepting: bool)
    requires Serving(net, clients, fd, pending, accepting)
    requires !net.conns[fd].eof && MustWait(net.conns[fd], clients[fd].Unsent())
    ensures Inv(net, clients, {}, pending, accepting)
  {
  }

  lemma EndStays(net: Net, mid: Net, clients: Clients, fd: nat, pending: seq<Event>, accepting: bool)
    requires Inv(net, clients, {fd}, pending, accepting) && fd in clients && EndedWell(net.conns[fd])
    requires Evolves(net, mid, {}) && NetInv(mid)
    ensures Inv(mid, clients, {fd}, pending, accepting) && EndedWell(mid.conns[fd])
  {
    BusyEvolves(net, mid, fd);
    OthersLeftAlone(net, mid, clients, {fd}, pending, accepting);
    assert ConnEvolves(net.conns[fd], mid.conns[fd], Client(fd) in mid.ready || fd !in net.watched);
  }

  lemma ClosingKeepsInv(net: Net, clients: Clients, fd: nat, pending: seq<Event>, accepting: bool)
    requires Inv(net, clients, {fd}, pending, accepting) && fd in clients && EndedWell(net.conns[fd])
    ensures Inv(AfterClose(net, fd), clients - {fd}, {}, pending, accepting)
  {
    CloseKeepsInv(net, fd);
  }

  /**
   The invariant between accept and epoll_ctl: connection `fd` is open, but neither watched nor known to any client.
   */
  ghost predicate Registering(net: Net, clients: Clients, fd: nat, pending: seq<Event>) {
    && NetInv(net)
    && clients.Keys == net.watched && net.accepted == net.watched + {fd} && fd !in clients && Untouched(net.conns[fd])
    && PendingOk(net, clients, {}, pending)
    && (forall other | other in clients :: clients[other].socket == other && clients[other].Valid())
    && (forall other | other in clients ::
          ClientOk(net.conns[other], clients[other].Unsent(),
                   Client(other) in net.ready || Awaits(pending, Client(other))))
    && (forall other | other in net.closed :: EndedWell(net.closed[other]))
  }

  lemma AcceptingBegins(net: Net, clients: Clients, pending: seq<Event>)
    requires Inv(net, clients, {}, pending, true) && net.backlog != [] && NetInv(AfterAccept(net))
    ensures Registering(AfterAccept(net), clients, net.backlog[0], pending)
  {
  }

  lemma PeersKeepRegistering(net: Net, net': Net, clients: Clients, fd: nat, pending: seq<Event>)
    requires Registering(net, clients, fd, pending) && Evolves(net, net', {}) && NetInv(net')
    ensures Registering(net', clients, fd, pending)
  {
    assert ConnEvolves(net.conns[fd], net'.conns[fd], Client(fd) in net'.ready || fd !in net.watched);
    forall other | other in clients
      ensures other in net'.conns && (net.conns[other].reset ==> net'.conns[other].reset)
      ensures ClientOk(net'.conns[other], clients[other].Unsent(),
                       Client(other) in net'.ready || Awaits(pending, Client(other)))
    {
      LeftAlone(net, net', {}, other, clients[other].Unsent(), Awaits(pending, Client(other)));
    }
  }

  lemma {:induction false} RegisteringEnds(net: Net, clients: Clients, fd: nat, client: ClientState,
                                         pending: seq<Event>)
    requires Registering(net, clients, fd, pending)
    requires client.socket == fd && client.Valid() && client.Unsent() == []
    ensures var net' := AfterEpollAdd(net, fd);
            Serving(net', clients[fd := client], fd, pending, true) && !net'.conns[fd].eof
  {
    EpollAddKeepsInv(net, fd);
  }

  lemma DoneAccepting(net: Net, clients: Clients, pending: seq<Event>)
    requires Inv(net, clients, {}, pending, true) && net.backlog == []
    ensures Inv(net, clients, {}, pending, false)
  {
  }

  /** Events reported by epoll_wait stand in for the edges it has forgotten. */
  lemma {:induction false} WaitingKeepsInv(net: Net, clients: Clients, events: seq<Event>)
    requires Inv(net, clients, {}, [], false) && |events| <= |net.ready|
    requires forall k | 0 <= k < |events| :: events[k].source == net.ready[k]
    requires forall k | 0 <= k < |events| ::
               events[k].source.Client? && events[k].source.fd in net.conns && events[k].hangup ==>
                 net.conns[events[k].source.fd].reset
    ensures Inv(net.(ready := net.ready[|events|..]), clients, {}, events, false)
  {
    var net' := net.(ready := net.ready[|events|..]);
    forall source | source in net.ready
      ensures source in net'.ready || Awaits(events, source)
    {
      var k :| 0 <= k < |net.ready| && net.ready[k] == source;
      if k < |events| {
        assert events[k].source == source;
      } else {
        assert net'.ready[k - |events|] == source;
      }
    }
    forall k | 0 <= k < |events| && events[k].source.Client?
      ensures events[k].source.fd in clients
    {
      assert events[k].source in net.ready;
    }
    assert NetInv(net') by {
      assert forall k | 0 <= k < |net'.ready| :: net'.ready[k] == net.ready[k + |events|];
    }
  }

  /** With no edge pending nobody stalls: whatever has arrived is sent back, unless the peer does not take it. */
  lemma {:induction false} QuietMeansServed(net: Net, clients: Clients)
    requires Inv(net, clients, {}, [], false) && net.ready == []
    ensures net.backlog == []
    ensures forall fd | fd in net.conns :: AtRest(net.conns[fd])
  {
    forall fd | fd in net.conns
      ensures AtRest(net.conns[fd])
    {
      assert fd in clients;
      var c, unsent := net.conns[fd], clients[fd].Unsent();
      assert ClientOk(c, unsent, false);
      WaitingIsAtRest(c, unsent);
    }
  }

  /**
   What must have become of connection `fd` in the end, when its peer makes this of it. If it is not aborted, its input
   has been sent back as far as the peer takes it, and it has been closed exactly if that is all and the peer finishes.
   */
  predicate AllDone(net: Net, fd: nat, outlook: Outlook) {
    match outlook
    case Aborted(input) => fd in net.closed && net.closed[fd].sent <= input
    case Lasting(input, finishes, capacity) =>
      var echo := input[..AtMost(|input|, capacity)];
      if finishes && |input| <= capacity then fd in net.closed && net.closed[fd].sent == echo
      else fd in net.conns && net.conns[fd].sent == echo
  }

  lemma RestAsForetold(c: Conn, fd: nat)
    requires AtRest(c)
    ensures var outlook := OutlookOf(c, [], fd);
            && outlook.Lasting? && !(outlook.finishes && |outlook.input| <= outlook.capacity)
            && c.sent == outlook.input[..AtMost(|outlook.input|, outlook.capacity)]
  {
    assert c.incoming + [] == c.incoming;
  }

  /** With the peers through, connections at rest and those that ended well are what the peers made of them. */
  lemma {:induction false} RestAsPlanned(plan: seq<PeerStep>, net: Net)
    requires NetInv(net) && AsPlanned(plan, net, [])
    requires forall fd | fd in net.conns :: AtRest(net.conns[fd])
    ensures net.next == Connects(plan)
    ensures forall fd: nat | fd < net.next :: AllDone(net, fd, Prospect(0, plan, fd))
  {
    forall fd: nat | fd < net.next
      ensures AllDone(net, fd, Prospect(0, plan, fd))
    {
      assert ConnAsPlanned(plan, net, [], fd);
      if fd in net.conns {
        RestAsForetold(net.conns[fd], fd);
      }
    }
  }

  // ---------------------------------------------------------------- the program

  class Server {
    const kernel: Kernel
    var clients: Clients  // the clients allocated and not yet freed, by their sockets

    constructor (kernel: Kernel)
      ensures this.kernel == kernel && clients == map[]
    {
      this.kernel, this.clients := kernel, map[];
    }

    ghost predicate Handling(fd: nat, pending: seq<Event>, accepting: bool)
      reads this, kernel
    {
      Serving(kernel.net, clients, fd, pending, accepting) && kernel.Planned()
    }

    method ClientRead(fd: nat, ghost pending: seq<Event>, ghost accepting: bool) returns (rbytes: int)
      requires Handling(fd, pending, accepting) && clients[fd].Unsent() == []
      modifies this`clients, kernel
      ensures Handling(fd, pending, accepting) && clients.Keys == old(clients.Keys)
      ensures var c := kernel.net.conns[fd];
              && c.eof == (old(kernel.net.conns[fd].eof) || rbytes == 0)
              && (rbytes == 0 ==> c.fin && c.incoming == [])
              && (rbytes < 0 ==> if kernel.errno == EAGAIN then c.Idle() else c.reset)
      ensures rbytes > 0 <==> clients[fd].Unsent() != []
      ensures kernel.failures
              == old(kernel.failures)
                 + if rbytes < 0 && kernel.errno != EAGAIN then [ReadFailed(fd, kernel.errno)] else []
      ensures Work(kernel.net, kernel.script) <= Work(old(kernel.net), old(kernel.script))
      ensures var left := InputLeft(kernel.net, kernel.script, fd);
              var left0 := InputLeft(old(kernel.net), old(kernel.script), fd);
              left <= left0 && (rbytes > 0 ==> left < left0)
    {
      InvMeans(kernel.net, clients, {fd}, pending, accepting);
      assert clients[fd].bufBegin == 0;
      var data;
      ghost var mid;
      rbytes, data, mid := kernel.Read(fd, BUFFER_SIZE);
      StreamKept(old(kernel.net), mid, fd, []);
      var client := clients[fd];
      if rbytes <= 0 {
        ServingKeepsInv(old(kernel.net), kernel.net, clients, fd, client, pending, accepting);
        return;
      }
      ReadEchoes(mid.conns[fd], rbytes);
      client := Filled(client, data);
      ServingKeepsInv(old(kernel.net), kernel.net, clients, fd, client, pending, accepting);
      clients := clients[fd := client];
    }

    method ClientWrite(fd: nat, ghost pending: seq<Event>, ghost accepting: bool) returns (wbytes: int)
      requires Handling(fd, pending, accepting) && clients[fd].Unsent() != []
      modifies this`clients, kernel
      ensures Handling(fd, pending, accepting) && clients.Keys == old(clients.Keys)
      ensures var c := kernel.net.conns[fd];
              && c.eof == old(kernel.net.conns[fd].eof)
              && (wbytes < 0 ==> if kernel.errno == EAGAIN then c.space == 0 && !c.reset else c.reset)
      ensures var unsent := old(clients[fd].Unsent());
              if wbytes < 0 then clients[fd].Unsent() == unsent
              else 1 <= wbytes <= |unsent| && clients[fd].Unsent() == unsent[wbytes..]
      ensures kernel.failures
              == old(kernel.failures)
                 + if wbytes < 0 && kernel.errno != EAGAIN then [WriteFailed(fd, kernel.errno)] else []
      ensures Work(kernel.net, kernel.script) <= Work(old(kernel.net), old(kernel.script))
      ensures InputLeft(kernel.net, kernel.script, fd) <= InputLeft(old(kernel.net), old(kernel.script), fd)
    {
      InvMeans(kernel.net, clients, {fd}, pending, accepting);
      var client := clients[fd];
      ghost var mid;
      wbytes, mid := kernel.Write(fd, client.buf[client.bufBegin..client.bufEnd]);
      StreamKept(old(kernel.net), mid, fd, client.Unsent());
      if wbytes >= 0 {
        WriteEchoes(mid.conns[fd], client.Unsent(), wbytes);
        client := Advanced(client, wbytes);
      }
      ServingKeepsInv(old(kernel.net), kernel.net, clients, fd, client, pending, accepting);
      clients := clients[fd := client];
    }

    /** Writes until nothing is left unsent, or no more can be written for now or ever. */
    method FlushBuffer(fd: nat, ghost pending: seq<Event>, ghost accepting: bool) returns (status: int, done: bool)
      requires Handling(fd, pending, accepting)
      modifies this`clients, kernel
      ensures Handling(fd, pending, accepting) && clients.Keys == old(clients.Keys)
      ensures var c, unsent := kernel.net.conns[fd], clients[fd].Unsent();
              && c.eof == old(kernel.net.conns[fd].eof)
              && (done ==> unsent == [])
              && (done ==> status == 0)
              && (!done ==> unsent != [] && if status == 0 then c.space == 0 && !c.reset else status == -2 && c.reset)
      ensures kernel.failures == old(kernel.failures) + Blamed(status, fd, kernel.errno)
      ensures Work(kernel.net, kernel.script) <= Work(old(kernel.net), old(kernel.script))
      ensures InputLeft(kernel.net, kernel.script, fd) <= InputLeft(old(kernel.net), old(kernel.script), fd)
    {
      while clients[fd].bufEnd != 0
        invariant Handling(fd, pending, accepting) && clients.Keys == old(clients.Keys)
        invariant kernel.net.conns[fd].eof == old(kernel.net.conns[fd].eof)
        invariant kernel.failures == old(kernel.failures)
        invariant Work(kernel.net, kernel.script) <= Work(old(kernel.net), old(kernel.script))
        invariant InputLeft(kernel.net, kernel.script, fd) <= InputLeft(old(kernel.net), old(kernel.script), fd)
        decreases |clients[fd].Unsent()|
      {
        var wbytes := ClientWrite(fd, pending, accepting);
        if wbytes < 0 {
          if kernel.errno == EAGAIN {
            // the next edge will tell when there is space again
            return 0, false;
          }
          return -2, false;
        }
      }
      return 0, true;
    }

    /** shutdown, close and free */
    method CloseConnection(fd: nat, ghost pending: seq<Event>, ghost accepting: bool)
      requires fd in clients && Inv(kernel.net, clients, {fd}, pending, accepting) && EndedWell(kernel.net.conns[fd])
      requires kernel.Planned()
      modifies this`clients, kernel
      ensures Inv(kernel.net, clients, {}, pending, accepting) && clients == old(clients) - {fd} && kernel.Planned()
      ensures kernel.failures == old(kernel.failures)
      ensures Work(kernel.net, kernel.script) <= Work(old(kernel.net), old(kernel.script))
    {
      InvMeans(kernel.net, clients, {fd}, pending, accepting);
      ghost var mid := kernel.Close(fd);
      EndStays(old(kernel.net), mid, clients, fd, pending, accepting);
      EndsAsPlanned(mid.conns[fd], kernel.script, fd);
      ClosingKeepsInv(mid, clients, fd, pending, accepting);
      clients := clients - {fd};
    }

    /** The loops of handle_client_until_eagain; `eof` tells that they ended with read returning 0. */
    method EchoUntilEagain(fd: nat, ghost pending: seq<Event>, ghost accepting: bool) returns (status: int, eof: bool)
      requires Handling(fd, pending, accepting) && !kernel.net.conns[fd].eof
      modifies this`clients, kernel
      ensures Handling(fd, pending, accepting) && clients.Keys == old(clients.Keys)
      ensures var c, unsent := kernel.net.conns[fd], clients[fd].Unsent();
              && c.eof == eof
              && (eof ==> status == 0 && c.fin && c.incoming == [] && unsent == [])
              && (!eof ==> if status == 0 then MustWait(c, unsent) else status in {-1, -2} && c.reset)
      ensures kernel.failures == old(kernel.failures) + Blamed(status, fd, kernel.errno)
      ensures Work(kernel.net, kernel.script) <= Work(old(kernel.net), old(kernel.script))
    {
      var done;
      status, done := FlushBuffer(fd, pending, accepting);
      if !done {
        return status, false;
      }
      status, eof := EchoInput(fd, pending, accepting);
    }

    /** The second loop: reads, and writes what it has read, until one of the two cannot go on. */
    method EchoInput(fd: nat, ghost pending: seq<Event>, ghost accepting: bool) returns (status: int, eof: bool)
      requires Handling(fd, pending, accepting) && !kernel.net.conns[fd].eof && clients[fd].Unsent() == []
      modifies this`clients, kernel
      ensures Handling(fd, pending, accepting) && clients.Keys == old(clients.Keys)
      ensures var c, unsent := kernel.net.conns[fd], clients[fd].Unsent();
              && c.eof == eof
              && (eof ==> status == 0 && c.fin && c.incoming == [] && unsent == [])
              && (!eof ==> if status == 0 then MustWait(c, unsent) else status in {-1, -2} && c.reset)
      ensures kernel.failures == old(kernel.failures) + Blamed(status, fd, kernel.errno)
      ensures Work(kernel.net, kernel.script) <= Work(old(kernel.net), old(kernel.script))
    {
      var rbytes, done := 1, true;
      while rbytes > 0
        invariant Handling(fd, pending, accepting) && clients.Keys == old(clients.Keys) && clients[fd].Unsent() == []
        invariant var c := kernel.net.conns[fd];
                  if rbytes > 0 then !c.eof
                  else if rbytes == 0 then c.eof && c.fin && c.incoming == []
                  else !c.eof && if kernel.errno == EAGAIN then c.Idle() else c.reset
        invariant kernel.failures
                  == old(kernel.failures)
                     + if rbytes < 0 && kernel.errno != EAGAIN then [ReadFailed(fd, kernel.errno)] else []
        invariant Work(kernel.net, kernel.script) <= Work(old(kernel.net), old(kernel.script))
        decreases InputLeft(kernel.net, kernel.script, fd), rbytes > 0
      {
        rbytes := ClientRead(fd, pending, accepting);
        if rbytes > 0 {
          status, done := FlushBuffer(fd, pending, accepting);
          if !done {
            return status, false;
          }
        }
      }
      if rbytes < 0 {
        if kernel.errno == EAGAIN {
          // the next edge will tell when more has arrived
          return 0, false;
        }
        return -1, false;
      }
      return 0, true;
    }

    method HandleClientUntilEagain(fd: nat, ghost pending: seq<Event>, ghost accepting: bool) returns (status: int)
      requires Handling(fd, pending, accepting) && !kernel.net.conns[fd].eof
      modifies this`clients, kernel
      ensures status == 0 ==> Inv(kernel.net, clients, {}, pending, accepting) && kernel.Planned()
      ensures status < 0 ==> Handling(fd, pending, accepting) && kernel.net.conns[fd].reset
      ensures status in {0, -1, -2} && kernel.failures == old(kernel.failures) + Blamed(status, fd, kernel.errno)
      ensures clients.Keys == old(clients.Keys) || (status == 0 && clients.Keys == old(clients.Keys) - {fd})
      ensures Work(kernel.net, kernel.script) <= Work(old(kernel.net), old(kernel.script))
    {
      var eof;
      status, eof := EchoUntilEagain(fd, pending, accepting);
      if eof {
        EndOfInput(kernel.net.conns[fd]);
        CloseConnection(fd, pending, accepting);
      } else if status == 0 {
        ServedKeepsInv(kernel.net, clients, fd, pending, accepting);
      }
    }

    method HandleClientEvent(event: Event, ghost rest: seq<Event>)
      requires event.source.Client? && Inv(kernel.net, clients, {}, [event] + rest, false) && kernel.Planned()
      modifies this`clients, kernel
      ensures Inv(kernel.net, clients, {}, rest, false) && kernel.Planned()
      ensures event.hangup ==> clients == old(clients) - {event.source.fd}
      ensures clients.Keys == old(clients.Keys) || clients.Keys == old(clients.Keys) - {event.source.fd}
      ensures Work(kernel.net, kernel.script) <= Work(old(kernel.net), old(kernel.script))
    {
      var fd := event.source.fd;
      BeginServing(kernel.net, clients, event, rest);
      if event.hangup {
        AbortedEndsWell(kernel.net.conns[fd], clients[fd].Unsent());
        CloseConnection(fd, rest, false);
        return;
      }
      var status := HandleClientUntilEagain(fd, rest, false);
      if status < 0 {
        AbortedEndsWell(kernel.net.conns[fd], clients[fd].Unsent());
        CloseConnection(fd, rest, false);
      }
    }

    method AcceptConnectionsUntilEagain(ghost pending: seq<Event>)
      requires Inv(kernel.net, clients, {}, pending, true) && kernel.Planned()
      modifies this`clients, kernel
      ensures Inv(kernel.net, clients, {}, pending, false) && kernel.Planned()
      ensures Work(kernel.net, kernel.script) <= Work(old(kernel.net), old(kernel.script))
    {
      while true
        invariant Inv(kernel.net, clients, {}, pending, true) && kernel.Planned()
        invariant Work(kernel.net, kernel.script) <= Work(old(kernel.net), old(kernel.script))
        decreases Work(kernel.net, kernel.script)
      {
        var fd := AcceptOne(pending);
        if fd < 0 {
          // the next edge of the listening socket brings the server back here
          return;
        }
        // bytes may have arrived before the registration
        var status := HandleClientUntilEagain(fd, pending, true);
        if status < 0 {
          AbortedEndsWell(kernel.net.conns[fd], clients[fd].Unsent());
          CloseConnection(fd, pending, true);
        }
      }
    }

    /** Accepts a connection and registers its client; -1 when there is none. */
    method AcceptOne(ghost pending: seq<Event>) returns (fd: int)
      requires Inv(kernel.net, clients, {}, pending, true) && kernel.Planned()
      modifies this`clients, kernel
      ensures fd < 0 ==> Inv(kernel.net, clients, {}, pending, false) && kernel.Planned()
      ensures fd >= 0 ==> Handling(fd, pending, true) && !kernel.net.conns[fd].eof
      ensures Work(kernel.net, kernel.script) + (if fd < 0 then 0 else 1) <= Work(old(kernel.net), old(kernel.script))
    {
      ghost var mid;
      fd, mid := kernel.Accept();
      OthersLeftAlone(old(kernel.net), mid, clients, {}, pending, true);
      if fd < 0 {
        DoneAccepting(kernel.net, clients, pending);
        return;
      }
      var client := NewClient(fd, seq(BUFFER_SIZE, _ => 0));
      AcceptingBegins(mid, clients, pending);
      ghost var accepted := kernel.net;
      mid := kernel.EpollAdd(fd);
      PeersKeepRegistering(accepted, mid, clients, fd, pending);
      RegisteringEnds(mid, clients, fd, client, pending);
      clients := clients[fd := client];
    }

    method HandleEvent(event: Event, ghost rest: seq<Event>)
      requires Inv(kernel.net, clients, {}, [event] + rest, false) && kernel.Planned()
      modifies this`clients, kernel
      ensures Inv(kernel.net, clients, {}, rest, false) && kernel.Planned()
      ensures Work(kernel.net, kernel.script) <= Work(old(kernel.net), old(kernel.script))
    {
      if event.source == Listener {
        BeginAccepting(kernel.net, clients, event, rest);
        AcceptConnectionsUntilEagain(rest);
      } else {
        HandleClientEvent(event, rest);
      }
    }

    method HandleEvents(events: seq<Event>)
      requires Inv(kernel.net, clients, {}, events, false) && kernel.Planned()
      modifies this`clients, kernel
      ensures Inv(kernel.net, clients, {}, [], false) && kernel.Planned()
      ensures Work(kernel.net, kernel.script) <= Work(old(kernel.net), old(kernel.script))
    {
      var i := 0;
      assert events[0..] == events;
      while i < |events|
        invariant 0 <= i <= |events|
        invariant Inv(kernel.net, clients, {}, events[i..], false) && kernel.Planned()
        invariant Work(kernel.net, kernel.script) <= Work(old(kernel.net), old(kernel.script))
      {
        HandleNth(events, i);
        i := i + 1;
      }
      assert events[i..] == [];
    }

    method HandleNth(events: seq<Event>, i: nat)
      requires i < |events| && Inv(kernel.net, clients, {}, events[i..], false) && kernel.Planned()
      modifies this`clients, kernel
      ensures Inv(kernel.net, clients, {}, events[i + 1..], false) && kernel.Planned()
      ensures Work(kernel.net, kernel.script) <= Work(old(kernel.net), old(kernel.script))
    {
      assert events[i..] == [events[i]] + events[i + 1..];
      HandleEvent(events[i], events[i + 1..]);
    }

    /**
     The main loop. The source's loop never ends; here it ends when epoll_wait would not return any more, which the
     peers' finite script makes sure happens.
     */
    method Run()
      requires Inv(kernel.net, clients, {}, [], false) && kernel.Planned()
      modifies this`clients, kernel
      ensures NetInv(kernel.net) && kernel.script == [] && kernel.net.ready == [] && kernel.net.backlog == []
      ensures forall fd | fd in kernel.net.conns :: AtRest(kernel.net.conns[fd])
      ensures forall fd | fd in kernel.net.closed :: EndedWell(kernel.net.closed[fd])
      ensures kernel.net.next == Connects(kernel.plan)
      ensures forall fd: nat | fd < kernel.net.next :: AllDone(kernel.net, fd, Prospect(0, kernel.plan, fd))
    {
      while true
        invariant Inv(kernel.net, clients, {}, [], false) && kernel.Planned()
        decreases Work(kernel.net, kernel.script)
      {
        ghost var net0 := kernel.net;
        var events;
        ghost var mid;
        events, mid := kernel.EpollWait(MAX_EPOLL_EVENTS);
        OthersLeftAlone(net0, mid, clients, {}, [], false);
        if events == [] {
          QuietMeansServed(mid, clients);
          RestAsPlanned(kernel.plan, mid);
          return;
        }
        WaitingKeepsInv(mid, clients, events);
        HandleEvents(events);
      }
    }
  }

  /**
   The program from start to rest, for any script of the peers: it serves every connection they make, and what
   becomes of each depends on its peer alone. Each has been closed, aborted or with every byte echoed, or is open
   with nothing left to do until its peer acts.
   */
  method Serve(script: seq<PeerStep>) returns (net: Net)
    ensures net.backlog == [] && net.ready == [] && net.next == Connects(script)
    ensures forall fd: nat | fd < net.next :: AllDone(net, fd, Prospect(0, script, fd))
    ensures forall fd: nat | fd < net.next ::
              || (fd in net.conns && AtRest(net.conns[fd]))
              || (fd in net.closed && EndedWell(net.closed[fd]))
  {
    var kernel := new Kernel(script);
    var server := new Server(kernel);
    server.Run();
    net := kernel.net;
  }
}
