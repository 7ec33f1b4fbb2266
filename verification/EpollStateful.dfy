/**
 The level-triggered echo server: an event tells what a socket is ready for, and one call is made for each event.

 Its sockets are blocking. The module proves that accept and read are only called when they need not wait, and
 exactly when a write waits for ever: when its peer neither aborts nor makes space for all the bytes. Such a write
 stops the whole server. It can happen if and only if epoll may report a socket writable on which a full buffer does
 not fit; otherwise, once the peers are through, finitely many rounds of the main loop bring every connection to
 rest. In any case every connection stays an exact echo, and a client is never used once freed.
 */
module EpollStateful {
  import opened Network
  import opened Syscalls
  import opened EchoStream

  const MAX_EPOLL_EVENTS := 64000

  type Clients = map<nat, ClientState>

  // ---------------------------------------------------------------- invariant

  /** What an event that is still to be handled reports is still so. */
  predicate StillTrue(net: Net, event: LevelEvent) {
    match event.source
    case Listener => net.backlog != []
    case Client(fd) =>
      && fd in net.watched && fd in net.conns
      && var c := net.conns[fd];
         (event.hangup ==> c.reset) && (event.readable ==> !c.Idle()) && (event.writable ==> c.space >= net.lowWater)
  }

  ghost predicate PendingOk(net: Net, serving: set<nat>, pending: seq<LevelEvent>) {
    && (forall j, k | 0 <= j < k < |pending| :: pending[j].source != pending[k].source)
    && (forall k | 0 <= k < |pending| :: StillTrue(net, pending[k]))
    && (forall k | 0 <= k < |pending| :: pending[k].source.Client? ==> pending[k].source.fd !in serving)
  }

  predicate ClientOk(c: Conn, unsent: seq<Byte>) {
    Echoes(c, unsent) && !c.eof
  }

  /** `pending` are the events still to be handled; the clients in `serving` are in the middle of something. */
  ghost predicate Inv(net: Net, clients: Clients, serving: set<nat>, pending: seq<LevelEvent>) {
    && NetInv(net)
    && clients.Keys == net.accepted == net.watched
    && PendingOk(net, serving, pending)
    && (forall fd | fd in clients :: clients[fd].socket == fd && clients[fd].Valid())
    && (forall fd | fd in clients && fd !in serving :: ClientOk(net.conns[fd], clients[fd].Unsent()))
    && (forall fd | fd in net.closed :: EndedWell(net.closed[fd]))
  }

  lemma InvMeans(net: Net, clients: Clients, serving: set<nat>, pending: seq<LevelEvent>)
    requires Inv(net, clients, serving, pending)
    ensures NetInv(net) && clients.Keys == net.accepted == net.watched
    ensures forall fd | fd in clients :: fd in net.conns && clients[fd].socket == fd && clients[fd].Valid()
  {
  }

  /** Peers, and calls on another socket, take nothing away that an event has reported. */
  lemma {:induction false} PendingKept(net: Net, net': Net, serving: set<nat>, pending: seq<LevelEvent>)
    requires Evolves(net, net', serving) && PendingOk(net, serving, pending)
    ensures PendingOk(net', serving, pending)
  {
    forall k | 0 <= k < |pending|
      ensures StillTrue(net', pending[k])
    {
      assert StillTrue(net, pending[k]);
      if pending[k].source.Client? {
        var fd := pending[k].source.fd;
        assert ConnEvolves(net.conns[fd], net'.conns[fd], Client(fd) in net'.ready || fd !in net.watched);
      }
    }
  }

  lemma StreamKept(net: Net, net': Net, serving: set<nat>, fd: nat, unsent: seq<Byte>)
    requires Evolves(net, net', serving) && fd in net.conns && fd !in serving
    ensures fd in net'.conns && net'.conns[fd].eof == net.conns[fd].eof
    ensures Echoes(net'.conns[fd], unsent) == Echoes(net.conns[fd], unsent)
    ensures EndedWell(net.conns[fd]) ==> EndedWell(net'.conns[fd])
  {
    assert ConnEvolves(net.conns[fd], net'.conns[fd], Client(fd) in net'.ready || fd !in net.watched);
  }

  lemma OthersLeftAlone(net: Net, net': Net, clients: Clients, serving: set<nat>, pending: seq<LevelEvent>)
    requires Inv(net, clients, serving, pending) && Evolves(net, net', serving) && NetInv(net')
    ensures Inv(net', clients, serving, pending)
  {
    PendingKept(net, net', serving, pending);
    forall fd | fd in clients && fd !in serving
      ensures ClientOk(net'.conns[fd], clients[fd].Unsent())
    {
      StreamKept(net, net', serving, fd, clients[fd].Unsent());
    }
  }

  /** A call on socket `fd` that leaves `client` in memory. */
  lemma CallKeepsInv(net: Net, net': Net, clients: Clients, fd: nat, client: ClientState, pending: seq<LevelEvent>)
    requires Inv(net, clients, {fd}, pending) && Evolves(net, net', {fd}) && NetInv(net')
    requires fd in clients && client.socket == fd && client.Valid()
    requires fd in net'.conns && ClientOk(net'.conns[fd], client.Unsent())
    ensures Inv(net', clients[fd := client], {}, pending)
  {
    OthersLeftAlone(net, net', clients, {fd}, pending);
  }

  lemma EndStays(net: Net, mid: Net, clients: Clients, fd: nat, pending: seq<LevelEvent>)
    requires Inv(net, clients, {fd}, pending) && fd in clients && EndedWell(net.conns[fd])
    requires Evolves(net, mid, {}) && NetInv(mid)
    ensures Inv(mid, clients, {fd}, pending) && EndedWell(mid.conns[fd])
  {
    BusyEvolves(net, mid, fd);
    OthersLeftAlone(net, mid, clients, {fd}, pending);
    StreamKept(net, mid, {}, fd, []);
  }

  lemma ClosingKeepsInv(net: Net, clients: Clients, fd: nat, pending: seq<LevelEvent>)
    requires Inv(net, clients, {fd}, pending) && fd in clients && EndedWell(net.conns[fd])
    ensures Inv(AfterClose(net, fd), clients - {fd}, {}, pending)
  {
    CloseKeepsInv(net, fd);
  }

  /** Taking up the first of the events that are still to be handled. */
  lemma BeginServing(net: Net, clients: Clients, event: LevelEvent, rest: seq<LevelEvent>)
    requires Inv(net, clients, {}, [event] + rest)
    ensures StillTrue(net, event)
    ensures event.source.Listener? ==> forall k | 0 <= k < |rest| :: rest[k].source.Client?
    ensures Inv(net, clients, if event.source.Client? then {event.source.fd} else {}, rest)
    ensures event.source.Client? ==>
              event.source.fd in clients && ClientOk(net.conns[event.source.fd], clients[event.source.fd].Unsent())
  {
    var pending := [event] + rest;
    assert pending[0] == event && forall k | 0 <= k < |rest| :: pending[k + 1] == rest[k];
  }

  lemma SpaceKept(net: Net, mid: Net, fd: nat)
    requires Evolves(net, mid, {}) && fd in net.conns
    ensures fd in mid.conns && net.conns[fd].space <= mid.conns[fd].space
    ensures !net.conns[fd].Idle() ==> !mid.conns[fd].Idle()
  {
    assert ConnEvolves(net.conns[fd], mid.conns[fd], Client(fd) in mid.ready || fd !in net.watched);
  }

  lemma NothingToDo(net: Net, clients: Clients, fd: nat, pending: seq<LevelEvent>)
    requires Inv(net, clients, {fd}, pending) && fd in clients && ClientOk(net.conns[fd], clients[fd].Unsent())
    ensures Inv(net, clients, {}, pending)
  {
  }

  lemma Reported(net: Net, clients: Clients, events: seq<LevelEvent>)
    requires Inv(net, clients, {}, [])
    requires forall i | 0 <= i < |events| :: IsLevelOf(net, events[i])
    requires forall i, j | 0 <= i < j < |events| :: events[i].source != events[j].source
    ensures Inv(net, clients, {}, events)
  {
    forall k | 0 <= k < |events|
      ensures StillTrue(net, events[k])
    {
      assert IsLevelOf(net, events[k]);
    }
  }

  /**
   The invariant between accept and epoll_ctl: connection `fd` is open, but neither watched nor known to any client.
   */
  ghost predicate Registering(net: Net, clients: Clients, fd: nat, pending: seq<LevelEvent>) {
    && NetInv(net)
    && clients.Keys == net.watched && net.accepted == net.watched + {fd} && fd !in clients && Untouched(net.conns[fd])
    && PendingOk(net, {}, pending) && (forall k | 0 <= k < |pending| :: pending[k].source.Client?)
    && (forall other | other in clients :: clients[other].socket == other && clients[other].Valid())
    && (forall other | other in clients :: ClientOk(net.conns[other], clients[other].Unsent()))
    && (forall other | other in net.closed :: EndedWell(net.closed[other]))
  }

  lemma AcceptingBegins(net: Net, clients: Clients, pending: seq<LevelEvent>)
    requires Inv(net, clients, {}, pending) && net.backlog != [] && NetInv(AfterAccept(net))
    requires forall k | 0 <= k < |pending| :: pending[k].source.Client?
    ensures Registering(AfterAccept(net), clients, net.backlog[0], pending)
  {
    forall k | 0 <= k < |pending|
      ensures StillTrue(AfterAccept(net), pending[k])
    {
      assert StillTrue(net, pending[k]);
    }
  }

  lemma PeersKeepRegistering(net: Net, net': Net, clients: Clients, fd: nat, pending: seq<LevelEvent>)
    requires Registering(net, clients, fd, pending) && Evolves(net, net', {}) && NetInv(net')
    ensures Registering(net', clients, fd, pending)
  {
    PendingKept(net, net', {}, pending);
    assert ConnEvolves(net.conns[fd], net'.conns[fd], Client(fd) in net'.ready || fd !in net.watched);
    forall other | other in clients
      ensures ClientOk(net'.conns[other], clients[other].Unsent())
    {
      StreamKept(net, net', {}, other, clients[other].Unsent());
    }
  }

  lemma RegisteringEnds(net: Net, clients: Clients, fd: nat, client: ClientState, pending: seq<LevelEvent>)
    requires Registering(net, clients, fd, pending)
    requires client.socket == fd && client.Valid() && client.Unsent() == []
    ensures Inv(AfterEpollAdd(net, fd), clients[fd := client], {}, pending)
  {
    EpollAddKeepsInv(net, fd);
    forall k | 0 <= k < |pending|
      ensures StillTrue(AfterEpollAdd(net, fd), pending[k])
    {
      assert StillTrue(net, pending[k]);
    }
  }

  // ---------------------------------------------------------------- coming to rest

  /** What is still to be done about connection `fd`: bytes to read and to write, and accepting it. */
  function Weight(net: Net, clients: Clients, fd: nat): nat {
    if fd !in net.conns then 0
    else
      2 * |net.conns[fd].incoming|
      + if fd in clients && clients[fd].Valid() then |clients[fd].Unsent()| + 1 else 2
  }

  function Total(net: Net, clients: Clients, n: nat): nat {
    if n == 0 then 0 else Total(net, clients, n - 1) + Weight(net, clients, n - 1)
  }

  ghost predicate Less(net: Net, clients: Clients, net': Net, clients': Clients) {
    net'.next == net.next && Total(net', clients', net.next) < Total(net, clients, net.next)
  }

  lemma {:induction false} TotalAt(net: Net, clients: Clients, net': Net, clients': Clients, fd: nat, n: nat)
    requires forall other: nat | other != fd :: Weight(net', clients', other) == Weight(net, clients, other)
    ensures Total(net', clients', n) - Total(net, clients, n)
            == if fd < n then Weight(net', clients', fd) - Weight(net, clients, fd) else 0
  {
    if n > 0 {
      TotalAt(net, clients, net', clients', fd, n - 1);
    }
  }

  /** Work done about one connection is work done. */
  lemma LessAt(net: Net, clients: Clients, net': Net, clients': Clients, fd: nat)
    requires fd < net.next && net'.next == net.next
    requires forall other: nat | other != fd :: Weight(net', clients', other) == Weight(net, clients, other)
    requires Weight(net', clients', fd) < Weight(net, clients, fd)
    ensures Less(net, clients, net', clients')
  {
    TotalAt(net, clients, net', clients', fd, net.next);
  }

  ghost predicate NoMore(net: Net, clients: Clients, net': Net, clients': Clients) {
    net'.next == net.next && Total(net', clients', net.next) <= Total(net, clients, net.next)
  }

  lemma WrittenIsLess(net: Net, clients: Clients, fd: nat, n: nat)
    requires NetInv(net) && fd in net.conns && fd in clients && clients[fd].Valid()
    requires 0 < n <= |clients[fd].Unsent()| && n <= net.conns[fd].space
    ensures Less(net, clients, AfterWrite(net, fd, clients[fd].Unsent(), n), clients[fd := Advanced(clients[fd], n)])
  {
    var net', clients' := AfterWrite(net, fd, clients[fd].Unsent(), n), clients[fd := Advanced(clients[fd], n)];
    LessAt(net, clients, net', clients', fd);
  }

  lemma ReadIsLess(net: Net, clients: Clients, fd: nat, n: nat)
    requires NetInv(net) && fd in net.conns && fd in clients && clients[fd].Valid() && clients[fd].Unsent() == []
    requires 0 < n <= |net.conns[fd].incoming| && n <= BUFFER_SIZE
    ensures Less(net, clients, AfterRead(net, fd, n), clients[fd := Filled(clients[fd], net.conns[fd].incoming[..n])])
  {
    var net' := AfterRead(net, fd, n);
    var clients' := clients[fd := Filled(clients[fd], net.conns[fd].incoming[..n])];
    LessAt(net, clients, net', clients', fd);
  }

  lemma NothingReadIsNoMore(net: Net, clients: Clients, fd: nat, n: int)
    requires fd in net.conns && n <= 0
    ensures NoMore(net, clients, AfterRead(net, fd, n), clients)
  {
    TotalAt(net, clients, AfterRead(net, fd, n), clients, fd, net.next);
  }

  lemma ClosedIsLess(net: Net, clients: Clients, fd: nat)
    requires NetInv(net) && fd in net.conns
    ensures Less(net, clients, AfterClose(net, fd), clients - {fd})
  {
    LessAt(net, clients, AfterClose(net, fd), clients - {fd}, fd);
  }

  lemma AcceptedIsLess(net: Net, clients: Clients, client: ClientState)
    requires NetInv(net) && net.backlog != [] && net.backlog[0] !in clients
    requires client.Valid() && client.Unsent() == []
    ensures var fd := net.backlog[0];
            fd in net.conns && Less(net, clients, AfterEpollAdd(AfterAccept(net), fd), clients[fd := client])
  {
    var fd := net.backlog[0];
    LessAt(net, clients, AfterEpollAdd(AfterAccept(net), fd), clients[fd := client], fd);
  }

  /** Work has been done, or nothing has changed and that is how it stays. */
  ghost predicate Progress(net: Net, clients: Clients, net': Net, clients': Clients, futile: bool) {
    Less(net, clients, net', clients') || (net' == net && clients' == clients && futile)
  }

  ghost predicate SomeReset(net: Net) {
    exists fd | fd in net.conns :: net.conns[fd].reset
  }

  /** Nothing can be done about this event: what the socket is ready for is not what its client needs. */
  predicate Futile(clients: Clients, event: LevelEvent) {
    && event.source.Client? && event.source.fd in clients && clients[event.source.fd].Valid()
    && !event.hangup
    && if clients[event.source.fd].Unsent() != [] then !event.writable else !event.readable
  }

  /** Nobody can be served any further, as long as the peers do not act. */
  ghost predicate AllAtRest(net: Net) {
    net.backlog == [] && forall fd | fd in net.conns :: AtRest(net.conns[fd], net.lowWater)
  }

  /** When a complete report is futile, all is at rest. */
  lemma {:induction false} FutileMeansRest(net: Net, clients: Clients, events: seq<LevelEvent>)
    requires Inv(net, clients, {}, [])
    requires forall k | 0 <= k < |events| :: IsLevelOf(net, events[k]) && Futile(clients, events[k])
    requires forall source | IsReady(net, source) :: Reports(events, source)
    ensures AllAtRest(net)
  {
    assert IsReady(net, Listener) ==> Reports(events, Listener);
    assert net.backlog == [];
    forall fd | fd in net.conns
      ensures AtRest(net.conns[fd], net.lowWater)
    {
      var c, unsent := net.conns[fd], clients[fd].Unsent();
      assert ClientOk(c, unsent);
      if IsReady(net, Client(fd)) {
        var k :| 0 <= k < |events| && events[k].source == Client(fd);
        assert IsLevelOf(net, events[k]) && Futile(clients, events[k]);
      }
      WaitingIsAtRest(c, unsent, net.lowWater);
    }
  }

  /** A read of `n` bytes for client `fd`, the peers having acted before it took effect. */
  lemma ReadKeepsInv(net: Net, mid: Net, clients: Clients, fd: nat, n: int, pending: seq<LevelEvent>)
    requires Inv(net, clients, {fd}, pending) && Evolves(net, mid, {}) && NetInv(mid) && fd in clients
    requires ClientOk(net.conns[fd], clients[fd].Unsent()) && clients[fd].Unsent() == []
    requires fd in mid.conns && 0 < n <= |mid.conns[fd].incoming| && n <= BUFFER_SIZE
    requires NetInv(AfterRead(mid, fd, n)) && Evolves(net, AfterRead(mid, fd, n), {fd})
    ensures var client := Filled(clients[fd], mid.conns[fd].incoming[..n]);
            && Inv(AfterRead(mid, fd, n), clients[fd := client], {}, pending)
            && Less(mid, clients, AfterRead(mid, fd, n), clients[fd := client])
  {
    StreamKept(net, mid, {}, fd, []);
    ReadEchoes(mid.conns[fd], n);
    ReadIsLess(mid, clients, fd, n);
    var client := Filled(clients[fd], mid.conns[fd].incoming[..n]);
    CallKeepsInv(net, AfterRead(mid, fd, n), clients, fd, client, pending);
  }

  lemma WrittenEchoes(c: Conn, c': Conn, unsent: seq<Byte>, done: nat)
    requires Echoes(c, unsent) && done <= |unsent| && c'.received == c.received && c'.sent == c.sent + unsent[..done]
    ensures Echoes(c', unsent[done..])
  {
    assert unsent == unsent[..done] + unsent[done..];
  }

  /** What `done` bytes of a blocking write leave behind. */
  lemma WrittenKeepsInv(net: Net, script: seq<PeerStep>, net': Net, script': seq<PeerStep>, clients: Clients, fd: nat,
                        done: nat, pending: seq<LevelEvent>)
    requires Inv(net, clients, {fd}, pending) && fd in clients && ClientOk(net.conns[fd], clients[fd].Unsent())
    requires Writing(net, script, net', script', fd, clients[fd].Unsent(), done) && 0 < done
    ensures var clients' := clients[fd := Advanced(clients[fd], done)];
            && Inv(net', clients', {}, pending)
            && (script == [] ==> Less(net, clients, net', clients'))
  {
    var unsent := clients[fd].Unsent();
    WrittenEchoes(net.conns[fd], net'.conns[fd], unsent, done);
    CallKeepsInv(net, net', clients, fd, Advanced(clients[fd], done), pending);
    if script == [] {
      WrittenIsLess(net, clients, fd, done);
    }
  }

  /**
   The server waits for ever in a write for client `fd`, a beginning of the bytes sent; all else is as it should be.
   */
  ghost predicate Hanging(net: Net, clients: Clients, fd: nat) {
    && Inv(net, clients, {fd}, []) && fd in clients
    && var c, unsent := net.conns[fd], clients[fd].Unsent();
       !c.reset && !c.eof && c.space == 0 && exists k | 0 <= k < |unsent| :: Echoes(c, unsent[k..])
  }

  lemma HangingWrite(net: Net, script: seq<PeerStep>, net': Net, script': seq<PeerStep>, clients: Clients, fd: nat,
                     done: nat, pending: seq<LevelEvent>)
    requires Inv(net, clients, {fd}, pending) && fd in clients && ClientOk(net.conns[fd], clients[fd].Unsent())
    requires Writing(net, script, net', script', fd, clients[fd].Unsent(), done) && done < |clients[fd].Unsent()|
    requires net'.conns[fd].space == 0 && !net'.conns[fd].reset
    ensures Hanging(net', clients, fd)
  {
    WrittenEchoes(net.conns[fd], net'.conns[fd], clients[fd].Unsent(), done);
    OthersLeftAlone(net, net', clients, {fd}, pending);
  }

  /** With the peers through, writing all that was unsent is all that has happened. */
  ghost predicate WrittenExactly(net: Net, clients: Clients, net': Net, clients': Clients, fd: nat) {
    && fd in net.conns && fd in clients && clients[fd].Valid() && |clients[fd].Unsent()| <= net.conns[fd].space
    && net' == AfterWrite(net, fd, clients[fd].Unsent(), |clients[fd].Unsent()|)
    && clients' == clients[fd := Advanced(clients[fd], |clients[fd].Unsent()|)]
  }

  lemma AllWritten(net: Net, clients: Clients, net': Net, fd: nat, done: nat)
    requires NoReset(net) && fd in net.conns && fd in clients && clients[fd].Valid()
    requires done <= |clients[fd].Unsent()| && done <= net.conns[fd].space
    requires net' == AfterWrite(net, fd, clients[fd].Unsent(), done)
    requires done < |clients[fd].Unsent()| ==> net'.conns[fd].reset
    ensures done == |clients[fd].Unsent()|
    ensures WrittenExactly(net, clients, net', clients[fd := Advanced(clients[fd], done)], fd)
  {
  }

  predicate Readable(c: Conn) {
    c.incoming != [] && !c.reset
  }

  /** With the peers through, a read of `n` bytes is all that has happened. */
  ghost predicate ReadExactly(net: Net, net': Net, fd: nat, n: nat, eager: bool) {
    && fd in net.conns && n <= |net.conns[fd].incoming| && net' == AfterRead(net, fd, n)
    && (eager ==> n == BUFFER_SIZE || n == |net.conns[fd].incoming|)
  }

  // ---------------------------------------------------------------- what is bound to happen

  /**
   What an eager server does about a connection with this many bytes unsent, this many more to read and this much space,
   when its peer is through: does it end up in a write that never returns?
   */
  predicate WillHang(unsent: nat, incoming: nat, space: nat, lowWater: nat)
    decreases incoming, unsent
  {
    if unsent > 0 then space >= lowWater && (unsent > space || WillHang(0, incoming, space - unsent, lowWater))
    else
      var n := AtMost(BUFFER_SIZE, incoming);
      n > 0 && WillHang(n, incoming - n, space, lowWater)
  }

  function UnsentTo(clients: Clients, fd: nat): nat {
    if fd in clients && clients[fd].Valid() then |clients[fd].Unsent()| else 0
  }

  predicate WillHangAt(net: Net, clients: Clients, fd: nat) {
    && fd in net.conns
    && WillHang(UnsentTo(clients, fd), |net.conns[fd].incoming|, net.conns[fd].space, net.lowWater)
  }

  /** Some connection is going to hang the server. */
  ghost predicate Fated(net: Net, clients: Clients) {
    exists fd: nat :: WillHangAt(net, clients, fd)
  }

  ghost predicate NoReset(net: Net) {
    forall fd | fd in net.conns :: !net.conns[fd].reset
  }

  /** The peers are through, none of them having aborted, and the server reads all it can. */
  ghost predicate Calm(net: Net, script: seq<PeerStep>, eager: bool) {
    script == [] && eager && NoReset(net)
  }

  /** What was bound to happen still is. */
  ghost predicate SameFate(net: Net, clients: Clients, net': Net, clients': Clients) {
    NoReset(net') && forall fd: nat :: WillHangAt(net', clients', fd) <==> WillHangAt(net, clients, fd)
  }

  lemma ReadFate(net: Net, clients: Clients, fd: nat, n: nat)
    requires NoReset(net) && fd in net.conns && fd in clients && clients[fd].Valid() && clients[fd].Unsent() == []
    requires n == AtMost(BUFFER_SIZE, |net.conns[fd].incoming|)
    ensures n > 0 ==> SameFate(net, clients, AfterRead(net, fd, n),
                               clients[fd := Filled(clients[fd], net.conns[fd].incoming[..n])])
    ensures n == 0 ==> SameFate(net, clients, AfterRead(net, fd, n), clients)
                       && !WillHangAt(AfterRead(net, fd, n), clients, fd)
  {
    if n > 0 {
      var client := Filled(clients[fd], net.conns[fd].incoming[..n]);
      assert UnsentTo(clients[fd := client], fd) == n;
    }
  }

  lemma WriteFate(net: Net, clients: Clients, fd: nat)
    requires NoReset(net) && fd in net.conns && fd in clients && clients[fd].Valid()
    requires clients[fd].Unsent() != [] && net.lowWater <= net.conns[fd].space
    ensures var unsent := clients[fd].Unsent();
            if |unsent| > net.conns[fd].space then WillHangAt(net, clients, fd)
            else SameFate(net, clients, AfterWrite(net, fd, unsent, |unsent|),
                          clients[fd := Advanced(clients[fd], |unsent|)])
  {
    var unsent := clients[fd].Unsent();
    if |unsent| <= net.conns[fd].space {
      assert UnsentTo(clients[fd := Advanced(clients[fd], |unsent|)], fd) == 0;
    }
  }

  lemma CloseFate(net: Net, clients: Clients, fd: nat)
    requires NoReset(net) && fd in net.conns && !WillHangAt(net, clients, fd)
    ensures SameFate(net, clients, AfterClose(net, fd), clients - {fd})
  {
  }

  lemma AcceptFate(net: Net, clients: Clients, net': Net, clients': Clients)
    requires NoReset(net) && AcceptedExactly(net, clients, net', clients') && net.backlog[0] !in clients
    ensures SameFate(net, clients, net', clients')
  {
  }

  lemma FateOn(net: Net, clients: Clients, net1: Net, clients1: Clients, net2: Net, clients2: Clients)
    requires SameFate(net, clients, net1, clients1)
    ensures Fated(net1, clients1) ==> Fated(net, clients)
    ensures SameFate(net1, clients1, net2, clients2) ==> SameFate(net, clients, net2, clients2)
  {
  }

  lemma RestNeverHangs(c: Conn, unsent: seq<Byte>, lowWater: nat)
    requires Echoes(c, unsent) && AtRest(c, lowWater)
    ensures !WillHang(|unsent|, |c.incoming|, c.space, lowWater)
  {
    var n := AtMost(BUFFER_SIZE, |c.incoming|);
    assert |c.Arrived()| == |c.sent| + |unsent| + |c.incoming|;
    assert n > 0 && c.space < lowWater ==> !WillHang(n, |c.incoming| - n, c.space, lowWater);
  }

  /** Nobody at rest is bound to hang the server. */
  lemma RestIsNoFate(net: Net, clients: Clients)
    requires Inv(net, clients, {}, []) && AllAtRest(net)
    ensures !Fated(net, clients)
  {
    forall fd: nat | fd in net.conns
      ensures !WillHangAt(net, clients, fd)
    {
      RestNeverHangs(net.conns[fd], clients[fd].Unsent(), net.lowWater);
    }
  }

  // ---------------------------------------------------------------- the program

  /** A failed call that ends the program: any but a write to a connection that its peer has given up. */
  predicate Fatal(failure: Failure) {
    failure.ReadFailed? || failure.errno != EPIPE
  }

  predicate AnyFatal(failures: seq<Failure>) {
    exists failure | failure in failures :: Fatal(failure)
  }

  lemma FatalAdds(failures: seq<Failure>, made: seq<Failure>)
    requires |made| <= 1
    ensures AnyFatal(failures + made) <==> AnyFatal(failures) || (made != [] && Fatal(made[0]))
  {
    if failure :| failure in failures && Fatal(failure) {
      assert failure in failures + made;
    }
    if made != [] {
      assert made[0] in failures + made;
    }
  }

  class Server {
    const kernel: Kernel
    var clients: Clients  // the clients allocated and not yet freed, by their sockets
    var failed: bool      // err(1, ...) has been called
    var hung: bool        // a call will never return

    constructor (kernel: Kernel)
      ensures this.kernel == kernel && clients == map[] && !failed && !hung
    {
      this.kernel, this.clients, this.failed, this.hung := kernel, map[], false, false;
    }

    predicate Running()
      reads this
    {
      !failed && !hung
    }

    /** How the program stands with these events still to be handled. */
    ghost predicate Stands(pending: seq<LevelEvent>)
      reads this, kernel
    {
      if failed then !hung && SomeReset(kernel.net)
      else if hung then kernel.script == [] && exists fd | fd in clients :: Hanging(kernel.net, clients, fd)
      else Inv(kernel.net, clients, {}, pending)
    }

    /** The program has given up exactly if a call has failed in a way that makes it; the peers are on their plan. */
    ghost predicate Consistent()
      reads this, kernel
    {
      kernel.Planned() && (failed <==> AnyFatal(kernel.failures))
    }

    /** The program has done what was bound to happen, as things were with `net0` and `clients0`. */
    ghost predicate Foretold(net0: Net, clients0: Clients)
      reads this, kernel
    {
      !failed && if hung then Fated(net0, clients0) else SameFate(net0, clients0, kernel.net, clients)
    }

    /** shutdown, close and free */
    method CloseConnection(fd: nat, ghost pending: seq<LevelEvent>)
      requires fd in clients && Inv(kernel.net, clients, {fd}, pending) && EndedWell(kernel.net.conns[fd])
      modifies this`clients, kernel
      ensures Inv(kernel.net, clients, {}, pending) && clients == old(clients) - {fd}
      ensures kernel.net.lowWater == old(kernel.net.lowWater)
      ensures kernel.failures == old(kernel.failures) && (old(kernel.Planned()) ==> kernel.Planned())
      ensures old(kernel.script) == [] ==>
                && kernel.script == []
                && Less(old(kernel.net), old(clients), kernel.net, clients)
                && kernel.net == AfterClose(old(kernel.net), fd)
    {
      InvMeans(kernel.net, clients, {fd}, pending);
      ClosedIsLess(kernel.net, clients, fd);
      ghost var mid := kernel.Close(fd);
      EndStays(old(kernel.net), mid, clients, fd, pending);
      EndsAsPlanned(mid.conns[fd], kernel.script, fd);
      ClosingKeepsInv(mid, clients, fd, pending);
      clients := clients - {fd};
    }

    /** The same after a call since `net0` and `clients0` that has got no work done. */
    method CloseAfter(fd: nat, ghost pending: seq<LevelEvent>, ghost net0: Net, ghost clients0: Clients)
      requires fd in clients && Inv(kernel.net, clients, {fd}, pending) && EndedWell(kernel.net.conns[fd])
      modifies this`clients, kernel
      ensures Inv(kernel.net, clients, {}, pending) && fd !in clients
      ensures kernel.net.lowWater == old(kernel.net.lowWater)
      ensures kernel.failures == old(kernel.failures) && (old(kernel.Planned()) ==> kernel.Planned())
      ensures old(kernel.script) == [] && NoMore(net0, clients0, old(kernel.net), old(clients)) ==>
                kernel.script == [] && Less(net0, clients0, kernel.net, clients)
      ensures old(kernel.script) == [] && SameFate(net0, clients0, old(kernel.net), old(clients))
              && !WillHangAt(old(kernel.net), old(clients), fd) ==>
                SameFate(net0, clients0, kernel.net, clients)
    {
      ghost var net1, clients1 := kernel.net, clients;
      CloseConnection(fd, pending);
      if old(kernel.script) == [] && NoReset(net1) && !WillHangAt(net1, clients1, fd) {
        CloseFate(net1, clients1, fd);
      }
    }

    /**
     write of the unsent bytes, on a blocking socket. The call never returns exactly when the peer is neither going to
     abort nor to make space for all of them; otherwise they have all been sent, unless the connection was aborted.
     */
    method ClientWrite(fd: nat, ghost pending: seq<LevelEvent>) returns (wbytes: int)
      requires fd in clients && Inv(kernel.net, clients, {fd}, pending) && Running()
      requires ClientOk(kernel.net.conns[fd], clients[fd].Unsent()) && clients[fd].Unsent() != []
      modifies this`clients, this`hung, kernel
      ensures hung <==> Starved(old(kernel.net).conns[fd], old(kernel.script), fd, |old(clients)[fd].Unsent()|)
      ensures hung ==> clients == old(clients) && kernel.script == [] && Hanging(kernel.net, clients, fd)
                       && Evolves(old(kernel.net), kernel.net, {fd})
      ensures !hung && wbytes < 0 ==> kernel.errno != EAGAIN && clients == old(clients)
                                      && Inv(kernel.net, clients, {fd}, pending) && kernel.net.conns[fd].reset
                                      && EndedWell(kernel.net.conns[fd])
      ensures !hung && wbytes >= 0 ==> Inv(kernel.net, clients, {}, pending) && clients.Keys == old(clients.Keys)
                                       && 0 < wbytes <= |old(clients)[fd].Unsent()|
                                       && clients[fd].Unsent() == old(clients)[fd].Unsent()[wbytes..]
                                       && (clients[fd].Unsent() != [] ==> kernel.net.conns[fd].reset)
      ensures kernel.net.lowWater == old(kernel.net.lowWater)
      ensures kernel.failures
              == old(kernel.failures) + if wbytes < 0 && !hung then [WriteFailed(fd, kernel.errno)] else []
      ensures old(kernel.Planned()) ==> kernel.Planned()
      ensures !hung && old(kernel.script) == [] ==>
                kernel.script == [] && if wbytes < 0 then NoMore(old(kernel.net), old(clients), kernel.net, clients)
                                       else Less(old(kernel.net), old(clients), kernel.net, clients)
      ensures !hung && old(kernel.script) == [] && NoReset(old(kernel.net)) ==>
                WrittenExactly(old(kernel.net), old(clients), kernel.net, clients, fd)
    {
      InvMeans(kernel.net, clients, {fd}, pending);
      var client := clients[fd];
      ghost var done;
      wbytes, hung, done := kernel.WriteBlocking(fd, client.buf[client.bufBegin..client.bufEnd]);
      if hung {
        HangingWrite(old(kernel.net), old(kernel.script), kernel.net, kernel.script, clients, fd, done, pending);
        return;
      }
      if old(kernel.script) == [] && NoReset(old(kernel.net)) {
        AllWritten(old(kernel.net), clients, kernel.net, fd, done);
      }
      if wbytes < 0 {
        OthersLeftAlone(old(kernel.net), kernel.net, clients, {fd}, pending);
        return;
      }
      WrittenKeepsInv(old(kernel.net), old(kernel.script), kernel.net, kernel.script, clients, fd, done, pending);
      clients := clients[fd := Advanced(client, wbytes)];
    }

    /** read into the empty buffer: there is something to read, so the call need not wait. */
    method ClientRead(fd: nat, ghost pending: seq<LevelEvent>) returns (rbytes: int)
      requires fd in clients && Inv(kernel.net, clients, {fd}, pending)
      requires ClientOk(kernel.net.conns[fd], clients[fd].Unsent()) && clients[fd].Unsent() == []
      requires !kernel.net.conns[fd].Idle()
      modifies this`clients, kernel
      ensures rbytes <= 0 ==> clients == old(clients) && Inv(kernel.net, clients, {fd}, pending)
                              && EndedWell(kernel.net.conns[fd])
      ensures rbytes < 0 ==> kernel.errno != EAGAIN && kernel.net.conns[fd].reset
      ensures rbytes > 0 ==> Inv(kernel.net, clients, {}, pending) && clients.Keys == old(clients.Keys)
                             && clients[fd].Valid() && |clients[fd].Unsent()| == rbytes
      ensures kernel.failures == old(kernel.failures) + if rbytes < 0 then [ReadFailed(fd, kernel.errno)] else []
      ensures old(kernel.Planned()) ==> kernel.Planned()
      ensures kernel.net.lowWater == old(kernel.net.lowWater)
      ensures old(kernel.script) == [] && Readable(old(kernel.net).conns[fd]) ==>
                rbytes > 0 && ReadExactly(old(kernel.net), kernel.net, fd, rbytes, kernel.eager)
      ensures Calm(old(kernel.net), old(kernel.script), kernel.eager) ==>
                && rbytes >= 0 && SameFate(old(kernel.net), old(clients), kernel.net, clients)
                && (rbytes == 0 ==> !WillHangAt(kernel.net, clients, fd))
      ensures old(kernel.script) == [] ==>
                kernel.script == [] && if rbytes <= 0 then NoMore(old(kernel.net), old(clients), kernel.net, clients)
                                       else Less(old(kernel.net), old(clients), kernel.net, clients)
    {
      InvMeans(kernel.net, clients, {fd}, pending);
      var client := clients[fd];
      var data;
      ghost var mid;
      rbytes, data, mid := kernel.Read(fd, BUFFER_SIZE);
      if rbytes <= 0 {
        StreamKept(old(kernel.net), mid, {}, fd, []);
        SpaceKept(old(kernel.net), mid, fd);
        OthersLeftAlone(old(kernel.net), kernel.net, clients, {fd}, pending);
        NothingReadIsNoMore(mid, clients, fd, rbytes);
        if rbytes == 0 {
          EndOfInput(kernel.net.conns[fd]);
          if NoReset(mid) {
            ReadFate(mid, clients, fd, 0);
          }
        }
        return;
      }
      if NoReset(mid) && kernel.eager {
        ReadFate(mid, clients, fd, rbytes);
      }
      ReadKeepsInv(old(kernel.net), mid, clients, fd, rbytes, pending);
      clients := clients[fd := Filled(client, data)];
    }

    /** A client whose peer is gone is closed; any other error of write, since `net0` and `clients0`, is fatal. */
    method AfterFailedWrite(fd: nat, ghost rest: seq<LevelEvent>, ghost net0: Net, ghost clients0: Clients)
      requires fd in clients && Inv(kernel.net, clients, {fd}, rest) && Running()
      requires EndedWell(kernel.net.conns[fd]) && kernel.net.conns[fd].reset
      modifies this`clients, this`failed, kernel
      ensures Stands(rest) && kernel.net.lowWater == old(kernel.net.lowWater)
      ensures kernel.failures == old(kernel.failures) && (old(kernel.Planned()) ==> kernel.Planned())
      ensures if old(kernel.errno) == EPIPE then !failed && fd !in clients
              else failed && fd in kernel.net.conns && kernel.net.conns[fd].reset
      ensures !failed && old(kernel.script) == [] && NoMore(net0, clients0, old(kernel.net), old(clients)) ==>
                kernel.script == [] && Less(net0, clients0, kernel.net, clients)
    {
      if kernel.errno == EPIPE {
        CloseAfter(fd, rest, net0, clients0);
        return;
      }
      failed := true;
    }

    /** The branch for EPOLLOUT with a nonempty buffer. */
    method WriteUnsent(fd: nat, ghost rest: seq<LevelEvent>) returns (ghost made: seq<Failure>)
      requires fd in clients && Inv(kernel.net, clients, {fd}, rest) && Running()
      requires ClientOk(kernel.net.conns[fd], clients[fd].Unsent()) && clients[fd].Unsent() != []
      modifies this`clients, this`failed, this`hung, kernel
      ensures Stands(rest) && kernel.net.lowWater == old(kernel.net.lowWater)
      ensures failed ==> fd in kernel.net.conns && kernel.net.conns[fd].reset
      ensures kernel.failures == old(kernel.failures) + made && (old(kernel.Planned()) ==> kernel.Planned())
      ensures |made| <= 1 && (made != [] ==> made[0].WriteFailed? && made[0].fd == fd)
      ensures failed <==> made != [] && made[0].errno != EPIPE
      ensures made != [] && made[0].errno == EPIPE ==> Running() && fd !in clients
      ensures hung <==> Starved(old(kernel.net).conns[fd], old(kernel.script), fd, |old(clients)[fd].Unsent()|)
      ensures hung ==> Evolves(old(kernel.net), kernel.net, {fd})
      ensures Running() && fd in clients ==>
                && |clients[fd].Unsent()| < |old(clients)[fd].Unsent()|
                && (clients[fd].Unsent() != [] ==> kernel.net.conns[fd].reset)
      ensures Running() && old(kernel.script) == [] ==>
                kernel.script == [] && Less(old(kernel.net), old(clients), kernel.net, clients)
      ensures Calm(old(kernel.net), old(kernel.script), kernel.eager)
              && old(kernel.net).lowWater <= old(kernel.net).conns[fd].space ==>
                Foretold(old(kernel.net), old(clients))
    {
      var wbytes := ClientWrite(fd, rest);
      if Calm(old(kernel.net), old(kernel.script), kernel.eager)
         && old(kernel.net).lowWater <= old(kernel.net).conns[fd].space {
        WriteFate(old(kernel.net), old(clients), fd);
      }
      if hung || wbytes >= 0 {
        return [];
      }
      made := [WriteFailed(fd, kernel.errno)];
      AfterFailedWrite(fd, rest, old(kernel.net), old(clients));
    }

    /** The branch for EPOLLIN with an empty buffer. */
    method ReadMore(fd: nat, ghost rest: seq<LevelEvent>) returns (ghost made: seq<Failure>)
      requires fd in clients && Inv(kernel.net, clients, {fd}, rest) && Running()
      requires ClientOk(kernel.net.conns[fd], clients[fd].Unsent()) && clients[fd].Unsent() == []
      requires !kernel.net.conns[fd].Idle()
      modifies this`clients, this`failed, kernel
      ensures if failed then fd in kernel.net.conns && kernel.net.conns[fd].reset
              else Inv(kernel.net, clients, {}, rest)
      ensures kernel.net.lowWater == old(kernel.net.lowWater)
      ensures kernel.failures == old(kernel.failures) + made && (old(kernel.Planned()) ==> kernel.Planned())
      ensures |made| == (if failed then 1 else 0) && (failed ==> made[0].ReadFailed? && made[0].fd == fd)
      ensures Running() && fd in clients ==> clients[fd].Unsent() != []
      ensures Running() && old(kernel.script) == [] ==>
                kernel.script == [] && Less(old(kernel.net), old(clients), kernel.net, clients)
      ensures old(kernel.script) == [] && Readable(old(kernel.net).conns[fd]) ==>
                Running() && fd in clients
                && ReadExactly(old(kernel.net), kernel.net, fd, |clients[fd].Unsent()|, kernel.eager)
      ensures Calm(old(kernel.net), old(kernel.script), kernel.eager) ==>
                !failed && SameFate(old(kernel.net), old(clients), kernel.net, clients)
    {
      var rbytes := ClientRead(fd, rest);
      if rbytes < 0 {
        failed := true;
        return [ReadFailed(fd, kernel.errno)];
      }
      if rbytes == 0 {
        CloseAfter(fd, rest, old(kernel.net), old(clients));
      }
      return [];
    }

    /**
     Handles one event, after which the client has been closed, or makes progress if the event lets it: everything
     unsent has been sent, but for an abort, or, with nothing unsent, something has been read. The one call made may
     fail over an aborted connection: a write with EPIPE closes the client, and any other failure ends the program.
     It is hung exactly when the event makes it write more than the peer will ever take.
     */
    method HandleClientEvent(event: LevelEvent, ghost rest: seq<LevelEvent>) returns (ghost made: seq<Failure>)
      requires event.source.Client? && Inv(kernel.net, clients, {}, [event] + rest) && Running()
      modifies this`clients, this`failed, this`hung, kernel
      ensures Stands(rest) && kernel.net.lowWater == old(kernel.net.lowWater)
      ensures failed ==> event.source.fd in kernel.net.conns && kernel.net.conns[event.source.fd].reset
      ensures kernel.failures == old(kernel.failures) + made && (old(kernel.Planned()) ==> kernel.Planned())
      ensures failed <==> made != [] && (made[0].WriteFailed? ==> made[0].errno != EPIPE)
      ensures made != [] && made[0].WriteFailed? && made[0].errno == EPIPE ==> Running() && event.source.fd !in clients
      ensures var fd := event.source.fd;
              && fd in old(clients) && fd in old(kernel.net).conns
              && |made| <= 1
              && (made != [] ==> made[0].fd == fd && (made[0].ReadFailed? <==> old(clients)[fd].Unsent() == []))
              && (hung <==>
                    && !event.hangup && event.writable && old(clients)[fd].Unsent() != []
                    && Starved(old(kernel.net).conns[fd], old(kernel.script), fd, |old(clients)[fd].Unsent()|))
      ensures hung ==> Evolves(old(kernel.net), kernel.net, {event.source.fd})
      ensures old(kernel.net).lowWater >= BUFFER_SIZE ==> !hung
      ensures Running() && event.source.fd in clients ==>
                var unsent, unsent0 := clients[event.source.fd].Unsent(), old(clients)[event.source.fd].Unsent();
                if unsent0 != [] then
                  (if event.writable then
                     |unsent| < |unsent0| && (unsent != [] ==> kernel.net.conns[event.source.fd].reset)
                   else
                     unsent == unsent0)
                else event.readable <==> unsent != []
      ensures event.hangup ==> event.source.fd !in clients
      ensures Running() && old(kernel.script) == [] ==>
                && kernel.script == []
                && Progress(old(kernel.net), old(clients), kernel.net, clients, Futile(old(clients), event))
      ensures var fd := event.source.fd;
              !event.hangup && event.readable && old(clients)[fd].Unsent() == []
              && old(kernel.script) == [] && Readable(old(kernel.net).conns[fd]) ==>
                Running() && fd in clients
                && ReadExactly(old(kernel.net), kernel.net, fd, |clients[fd].Unsent()|, kernel.eager)
      ensures Calm(old(kernel.net), old(kernel.script), kernel.eager) ==> Foretold(old(kernel.net), old(clients))
    {
      var fd := event.source.fd;
      BeginServing(kernel.net, clients, event, rest);
      made := [];

      if event.hangup {
        CloseConnection(fd, rest);
        return;
      }

      if event.writable && clients[fd].bufEnd > 0 {
        made := WriteUnsent(fd, rest);
        return;
      }

      if event.readable && clients[fd].bufEnd == 0 {
        made := ReadMore(fd, rest);
        return;
      }
      NothingToDo(kernel.net, clients, fd, rest);
    }

    /** A connection is waiting, so accept need not. */
    method HandleConnEvent(event: LevelEvent, ghost rest: seq<LevelEvent>)
      requires event.source.Listener? && Inv(kernel.net, clients, {}, [event] + rest)
      modifies this`clients, kernel
      ensures Inv(kernel.net, clients, {}, rest) && kernel.net.lowWater == old(kernel.net.lowWater)
      ensures kernel.failures == old(kernel.failures) && (old(kernel.Planned()) ==> kernel.Planned())
      ensures exists fd | fd in clients :: clients.Keys == old(clients.Keys) + {fd} && fd !in old(clients.Keys)
      ensures old(kernel.script) == [] ==>
                kernel.script == [] && Less(old(kernel.net), old(clients), kernel.net, clients)
      ensures old(kernel.script) == [] ==>
                AcceptedExactly(old(kernel.net), old(clients), kernel.net, clients)
    {
      BeginServing(kernel.net, clients, event, rest);
      ghost var mid;
      var fd;
      fd, mid := kernel.Accept();
      OthersLeftAlone(old(kernel.net), mid, clients, {}, rest);
      assert fd >= 0;
      AcceptingBegins(mid, clients, rest);
      Register(fd, mid, rest);
    }

    /** The connection just accepted from the backlog of `before` is registered before any other event is handled. */
    method Register(fd: nat, ghost before: Net, ghost rest: seq<LevelEvent>)
      requires NetInv(before) && before.backlog != [] && fd == before.backlog[0] && kernel.net == AfterAccept(before)
      requires Registering(kernel.net, clients, fd, rest)
      modifies this`clients, kernel
      ensures Inv(kernel.net, clients, {}, rest) && kernel.net.lowWater == before.lowWater
      ensures kernel.failures == old(kernel.failures) && (old(kernel.Planned()) ==> kernel.Planned())
      ensures fd !in old(clients) && clients.Keys == old(clients.Keys) + {fd}
      ensures old(kernel.script) == [] ==>
                && kernel.script == [] && Less(before, old(clients), kernel.net, clients)
                && AcceptedExactly(before, old(clients), kernel.net, clients)
    {
      var client := NewClient(fd, seq(BUFFER_SIZE, _ => 0));
      AcceptedIsLess(before, clients, client);
      ghost var mid := kernel.EpollAdd(fd);
      PeersKeepRegistering(old(kernel.net), mid, clients, fd, rest);
      RegisteringEnds(mid, clients, fd, client, rest);
      clients := clients[fd := client];
    }

    /** The dispatch in the main loop. */
    method HandleEvent(event: LevelEvent, ghost rest: seq<LevelEvent>)
      requires Inv(kernel.net, clients, {}, [event] + rest) && Running() && Consistent()
      modifies this`clients, this`failed, this`hung, kernel
      ensures Stands(rest) && Consistent() && kernel.net.lowWater == old(kernel.net.lowWater)
      ensures old(kernel.net).lowWater >= BUFFER_SIZE ==> !hung
      ensures Running() && old(kernel.script) == [] ==>
                && kernel.script == []
                && Progress(old(kernel.net), old(clients), kernel.net, clients, Futile(old(clients), event))
      ensures Calm(old(kernel.net), old(kernel.script), kernel.eager) ==> Foretold(old(kernel.net), old(clients))
    {
      if event.source == Listener {
        HandleConnEvent(event, rest);
        if Calm(old(kernel.net), old(kernel.script), kernel.eager) {
          AcceptFate(old(kernel.net), old(clients), kernel.net, clients);
        }
      } else {
        ghost var made := HandleClientEvent(event, rest);
        FatalAdds(old(kernel.failures), made);
      }
    }

    /** How the program stands when `i` events of a batch, begun on `net0` and `clients0`, have been handled. */
    ghost predicate InBatch(events: seq<LevelEvent>, i: nat, net0: Net, clients0: Clients, quiet: bool, calm: bool)
      reads this, kernel
    {
      && i <= |events| && Stands(events[i..]) && Consistent() && kernel.net.lowWater == net0.lowWater
      && (net0.lowWater >= BUFFER_SIZE ==> !hung)
      && (Running() && quiet ==>
            && kernel.script == []
            && Progress(net0, clients0, kernel.net, clients, AllFutile(clients0, events[..i])))
      && (calm ==> quiet && kernel.eager && Foretold(net0, clients0))
    }

    method HandleNth(events: seq<LevelEvent>, i: nat, ghost net0: Net, ghost clients0: Clients, ghost quiet: bool,
                     ghost calm: bool)
      requires InBatch(events, i, net0, clients0, quiet, calm) && i < |events| && Running()
      modifies this`clients, this`failed, this`hung, kernel
      ensures InBatch(events, i + 1, net0, clients0, quiet, calm)
    {
      ghost var net1, clients1 := kernel.net, clients;
      assert events[i..] == [events[i]] + events[i + 1..];
      HandleEvent(events[i], events[i + 1..]);
      if Running() && quiet {
        ProgressOn(net0, clients0, net1, clients1, kernel.net, clients, events, i);
      }
      if calm {
        FateOn(net0, clients0, net1, clients1, kernel.net, clients);
      }
    }

    /** The loop over the events of a batch; `handled` is how many of them it got to. */
    method HandleAll(events: seq<LevelEvent>, ghost net0: Net, ghost clients0: Clients, ghost quiet: bool,
                     ghost calm: bool)
      returns (ghost handled: nat)
      requires InBatch(events, 0, net0, clients0, quiet, calm) && Running()
      modifies this`clients, this`failed, this`hung, kernel
      ensures InBatch(events, handled, net0, clients0, quiet, calm) && (Running() ==> handled == |events|)
    {
      var i: nat := 0;
      while i < |events| && Running()
        invariant i <= |events| && InBatch(events, i, net0, clients0, quiet, calm)
      {
        HandleNth(events, i, net0, clients0, quiet, calm);
        i := i + 1;
      }
      handled := i;
    }

    method HandleEvents(events: seq<LevelEvent>)
      requires Inv(kernel.net, clients, {}, events) && Running() && Consistent()
      modifies this`clients, this`failed, this`hung, kernel
      ensures Stands([]) && Consistent() && kernel.net.lowWater == old(kernel.net.lowWater)
      ensures old(kernel.net).lowWater >= BUFFER_SIZE ==> !hung
      ensures Running() && old(kernel.script) == [] ==>
                && kernel.script == []
                && Progress(old(kernel.net), old(clients), kernel.net, clients, AllFutile(old(clients), events))
      ensures Calm(old(kernel.net), old(kernel.script), kernel.eager) ==> Foretold(old(kernel.net), old(clients))
    {
      ghost var calm := Calm(kernel.net, kernel.script, kernel.eager);
      assert events[0..] == events && events[..0] == [];
      ghost var i := HandleAll(events, kernel.net, clients, kernel.script == [], calm);
      assert i == |events| ==> events[..i] == events && events[i..] == [];
    }

    /**
     One round of the main loop. With the peers through, it gets work done, changes nothing any more or hangs; when it
     changes nothing, everybody is at rest, unless there were so many sockets that epoll_wait could not report them all.
     */
    method RunOnce() returns (eventCount: nat)
      requires Inv(kernel.net, clients, {}, []) && Running() && Consistent()
      modifies this`clients, this`failed, this`hung, kernel
      ensures Stands([]) && Consistent() && kernel.net.lowWater == old(kernel.net.lowWater)
      ensures old(kernel.net).lowWater >= BUFFER_SIZE ==> !hung
      ensures Running() && old(kernel.script) == [] ==>
                && kernel.script == []
                && Progress(old(kernel.net), old(clients), kernel.net, clients,
                            eventCount < MAX_EPOLL_EVENTS ==> AllAtRest(kernel.net))
      ensures old(kernel.script) == [] ==> eventCount <= |old(clients)| + 1
      ensures Calm(old(kernel.net), old(kernel.script), kernel.eager) ==> Foretold(old(kernel.net), old(clients))
    {
      var events := kernel.EpollWaitLevel(MAX_EPOLL_EVENTS);
      eventCount := |events|;
      ghost var mid := kernel.net;
      OthersLeftAlone(old(kernel.net), mid, clients, {}, []);
      Reported(mid, clients, events);
      HandleEvents(events);
      if AllFutile(old(clients), events) && |events| < MAX_EPOLL_EVENTS && Running() && mid == kernel.net {
        if clients == old(clients) {
          FutileMeansRest(mid, clients, events);
        }
      }
    }

    /**
     The main loop once the peers are through, until a round changes nothing or hangs. If no connection was aborted
     and reads return all they can, it hangs exactly if some connection was bound to hang it, however the events are
     ordered.
     */
    method Settle() returns (eventCount: nat)
      requires Inv(kernel.net, clients, {}, []) && Running() && kernel.script == [] && Consistent()
      modifies this`clients, this`failed, this`hung, kernel
      ensures Stands([]) && Consistent() && kernel.net.lowWater == old(kernel.net.lowWater)
      ensures old(kernel.net).lowWater >= BUFFER_SIZE ==> !hung
      ensures Running() ==> kernel.script == []
      ensures Running() && eventCount < MAX_EPOLL_EVENTS ==> AllAtRest(kernel.net)
      ensures Running() ==> eventCount <= |clients| + 1
      ensures NoReset(old(kernel.net)) && kernel.eager ==> !failed
      ensures Running() && old(kernel.net).next + 1 < MAX_EPOLL_EVENTS ==> eventCount < MAX_EPOLL_EVENTS
      ensures NoReset(old(kernel.net)) && kernel.eager && old(kernel.net).next + 1 < MAX_EPOLL_EVENTS ==>
                (hung <==> Fated(old(kernel.net), old(clients)))
    {
      ghost var net0, clients0, calm := kernel.net, clients, NoReset(kernel.net) && kernel.eager;
      while true
        invariant Inv(kernel.net, clients, {}, []) && Running() && kernel.script == [] && Consistent()
        invariant kernel.net.lowWater == net0.lowWater && kernel.net.next == net0.next
        invariant calm ==> SameFate(net0, clients0, kernel.net, clients)
        decreases Total(kernel.net, clients, kernel.net.next)
      {
        var net1, clients1 := kernel.net, clients;
        eventCount := RunOnce();
        if calm {
          FateOn(net0, clients0, net1, clients1, kernel.net, clients);
        }
        if !Running() {
          return;
        }
        if kernel.net == net1 && clients == clients1 {
          FewClients(kernel.net, clients);
          if eventCount < MAX_EPOLL_EVENTS {
            RestIsNoFate(kernel.net, clients);
          }
          return;
        }
      }
    }

    /** Some rounds of the main loop, while the peers act. */
    method RunSome(rounds: nat)
      requires Inv(kernel.net, clients, {}, []) && Running() && Consistent()
      modifies this`clients, this`failed, this`hung, kernel
      ensures Stands([]) && Consistent() && kernel.net.lowWater == old(kernel.net.lowWater)
      ensures old(kernel.net).lowWater >= BUFFER_SIZE ==> !hung
    {
      var round := 0;
      while round < rounds && Running()
        invariant Stands([]) && Consistent() && kernel.net.lowWater == old(kernel.net.lowWater)
        invariant old(kernel.net).lowWater >= BUFFER_SIZE ==> !hung
      {
        var _ := RunOnce();
        round := round + 1;
      }
    }

    /** The peers do the rest of what they do, and then the main loop goes on until a round changes nothing or hangs. */
    method ComeToRest() returns (full: bool)
      requires Inv(kernel.net, clients, {}, []) && Running() && Consistent()
      modifies this`clients, this`failed, this`hung, kernel
      ensures Stands([]) && Consistent() && kernel.net.lowWater == old(kernel.net.lowWater)
      ensures !failed ==> kernel.script == []
      ensures old(kernel.net).lowWater >= BUFFER_SIZE ==> !hung
      ensures Running() && !full ==> AllAtRest(kernel.net)
    {
      kernel.FinishPeers();
      OthersLeftAlone(old(kernel.net), kernel.net, clients, {}, []);
      var eventCount := Settle();
      full := eventCount >= MAX_EPOLL_EVENTS;
    }
  }

  lemma {:induction false} FewBelow(s: set<nat>, n: nat)
    requires forall k | k in s :: k < n
    ensures |s| <= n
  {
    if n > 0 {
      FewBelow(s - {n - 1}, n - 1);
    } else {
      assert s == {};
    }
  }

  /** There are no more clients than connections have been made. */
  lemma FewClients(net: Net, clients: Clients)
    requires Inv(net, clients, {}, [])
    ensures |clients| <= net.next
  {
    FewBelow(clients.Keys, net.next);
  }

  ghost predicate AllFutile(clients: Clients, events: seq<LevelEvent>) {
    forall k | 0 <= k < |events| :: Futile(clients, events[k])
  }

  /** With the peers through, accepting one connection and registering a new client is all that has happened. */
  ghost predicate AcceptedExactly(net: Net, clients: Clients, net': Net, clients': Clients) {
    && net.backlog != [] && net.backlog[0] in net.conns && net.backlog[0] in clients'
    && var fd := net.backlog[0];
       && net' == AfterEpollAdd(AfterAccept(net), fd)
       && clients' == clients[fd := clients'[fd]] && clients'[fd].Valid() && clients'[fd].Unsent() == []
  }

  lemma ProgressOn(net: Net, clients: Clients, net1: Net, clients1: Clients, net2: Net, clients2: Clients,
                   events: seq<LevelEvent>, i: nat)
    requires i < |events|
    requires Progress(net, clients, net1, clients1, AllFutile(clients, events[..i]))
    requires Progress(net1, clients1, net2, clients2, Futile(clients1, events[i]))
    ensures Progress(net, clients, net2, clients2, AllFutile(clients, events[..i + 1]))
  {
    if net2 == net && clients2 == clients && net1 == net && clients1 == clients {
      assert events[..i + 1] == events[..i] + [events[i]];
    }
  }

  /** Accepted connections still open are echoes so far, be it with the server hung in a write to one of them. */
  lemma OpenAreEchoes(net: Net, clients: Clients, served: set<nat>)
    requires Inv(net, clients, served, [])
    requires forall fd | fd in served && fd in clients :: Hanging(net, clients, fd)
    ensures forall fd | fd in net.accepted :: net.conns[fd].sent <= net.conns[fd].received && !net.conns[fd].eof
  {
    forall fd | fd in net.accepted
      ensures net.conns[fd].sent <= net.conns[fd].received && !net.conns[fd].eof
    {
      assert fd !in served ==> ClientOk(net.conns[fd], clients[fd].Unsent());
    }
  }

  /** How a connection may stand while the server goes on or hangs. */
  predicate InService(net: Net, fd: nat) {
    || (fd in net.conns && fd in net.backlog && Untouched(net.conns[fd]))
    || (fd in net.conns && net.conns[fd].sent <= net.conns[fd].received && !net.conns[fd].eof)
    || (fd in net.closed && EndedWell(net.closed[fd]))
  }

  /** There is a connection whose peer does not take all that has been read from it, and no space to send. */
  predicate Clogged(c: Conn) {
    !c.reset && c.space == 0 && c.sent < c.received
  }

  /** How a connection stands while the server goes on or hangs, its peer making this of it in the end. */
  predicate OnTheWay(net: Net, fd: nat, outlook: Outlook) {
    if fd in net.conns then net.conns[fd].sent <= outlook.input
    else fd in net.closed && EndsAs(net.closed[fd], outlook)
  }

  /**
   What must have become of connection `fd` when all is at rest: unless it was aborted, its input has been sent back, up
   to less than `lowWater` bytes short of what the peer takes, and it has been closed only if that is all.
   */
  predicate AllDone(net: Net, fd: nat, outlook: Outlook, lowWater: nat) {
    match outlook
    case Aborted(input) => fd in net.closed && net.closed[fd].sent <= input
    case Lasting(input, finishes, capacity) =>
      if fd in net.conns then
        var sent := net.conns[fd].sent;
        && sent <= input && |sent| <= capacity
        && if sent == input then !finishes else capacity < |sent| + lowWater
      else
        fd in net.closed && net.closed[fd].sent == input && finishes && |input| <= capacity
  }

  lemma RestAsForetold(c: Conn, fd: nat, lowWater: nat)
    requires AtRest(c, lowWater)
    ensures var outlook := OutlookOf(c, [], fd);
            && outlook.Lasting? && c.sent <= outlook.input && |c.sent| <= outlook.capacity
            && if c.sent == outlook.input then !outlook.finishes else outlook.capacity < |c.sent| + lowWater
  {
    assert c.incoming + [] == c.incoming;
  }

  lemma {:induction false} RestAsPlanned(plan: seq<PeerStep>, net: Net)
    requires NetInv(net) && AsPlanned(plan, net, []) && AllAtRest(net)
    ensures forall fd: nat | fd < net.next :: AllDone(net, fd, Prospect(0, plan, fd), net.lowWater)
  {
    forall fd: nat | fd < net.next
      ensures AllDone(net, fd, Prospect(0, plan, fd), net.lowWater)
    {
      assert ConnAsPlanned(plan, net, [], fd);
      if fd in net.conns {
        RestAsForetold(net.conns[fd], fd, net.lowWater);
      }
    }
  }

  /** With the peers through, each connection is on its way, and one that clogs the server takes less than its input. */
  lemma {:induction false} StandsAsPlanned(plan: seq<PeerStep>, net: Net)
    requires NetInv(net) && AsPlanned(plan, net, []) && forall fd: nat | fd < net.next :: InService(net, fd)
    ensures net.next == Connects(plan)
    ensures forall fd: nat | fd < net.next :: OnTheWay(net, fd, Prospect(0, plan, fd))
    ensures (exists fd | fd in net.conns :: Clogged(net.conns[fd])) ==> exists fd :: TakesTooLittle(plan, fd)
  {
    forall fd: nat | fd < net.next
      ensures OnTheWay(net, fd, Prospect(0, plan, fd))
    {
      assert ConnAsPlanned(plan, net, [], fd);
      assert InService(net, fd);
    }
    if fd :| fd in net.conns && Clogged(net.conns[fd]) {
      assert ConnAsPlanned(plan, net, [], fd);
      assert TakesTooLittle(plan, fd);
    }
  }

  /** The peer of connection `fd` neither aborts nor takes all that it sends. */
  predicate TakesTooLittle(plan: seq<PeerStep>, fd: nat) {
    var outlook := Prospect(0, plan, fd);
    outlook.Lasting? && outlook.capacity < |outlook.input|
  }

  lemma AbortWasPlanned(plan: seq<PeerStep>, net: Net, script: seq<PeerStep>)
    requires AsPlanned(plan, net, script) && SomeReset(net)
    ensures exists fd: nat :: Prospect(0, plan, fd).Aborted?
  {
    var fd :| fd in net.conns && net.conns[fd].reset;
    assert ConnAsPlanned(plan, net, script, fd);
  }

  /**
   The program against any peers: some rounds of the main loop while they act, the rest when they are through.

   Every connection the peers make is at all times an exact echo or ended well. The program gives up exactly over a
   call that fails otherwise than a write with EPIPE, and only if some peer aborts its connection. It hangs only in
   a write to a peer that does not take all its bytes, and never if epoll reports a socket writable only when a
   whole buffer fits. If it does not hang, everybody is at rest in the end, unless there were more sockets than one
   epoll_wait reports (`full`), and then all has been done for each connection that its peer lets the server do.
   */
  method Serve(script: seq<PeerStep>, rounds: nat, lowWater: nat)
    returns (net: Net, failures: seq<Failure>, failed: bool, hung: bool, full: bool)
    requires lowWater > 0
    ensures net.lowWater == lowWater
    ensures failed <==> AnyFatal(failures)
    ensures failed ==> SomeReset(net) && exists fd: nat :: Prospect(0, script, fd).Aborted?
    ensures !failed ==> net.next == Connects(script)
    ensures !failed ==> forall fd: nat | fd < net.next :: OnTheWay(net, fd, Prospect(0, script, fd))
    ensures !failed ==> forall fd: nat | fd < net.next :: InService(net, fd)
    ensures hung ==> !failed && exists fd | fd in net.conns :: Clogged(net.conns[fd])
    ensures hung ==> exists fd :: TakesTooLittle(script, fd)
    ensures lowWater >= BUFFER_SIZE ==> !hung
    ensures !failed && !hung && !full ==> AllAtRest(net)
    ensures !failed && !hung && !full ==>
              forall fd: nat | fd < net.next :: AllDone(net, fd, Prospect(0, script, fd), lowWater)
  {
    var kernel := new Kernel(script, lowWater);
    var server := new Server(kernel);
    server.RunSome(rounds);
    full := false;
    if server.Running() {
      full := server.ComeToRest();
    }
    net, failures, failed, hung := kernel.net, kernel.failures, server.failed, server.hung;
    if failed {
      AbortWasPlanned(script, net, kernel.script);
      return;
    }
    StandsMeans(net, server.clients, hung);
    StandsAsPlanned(script, net);
    if !hung && !full {
      RestAsPlanned(script, net);
    }
  }

  lemma StandsMeans(net: Net, clients: Clients, hung: bool)
    requires if hung then exists fd | fd in clients :: Hanging(net, clients, fd) else Inv(net, clients, {}, [])
    ensures NetInv(net) && forall fd: nat | fd < net.next :: InService(net, fd)
    ensures hung ==> exists fd | fd in net.conns :: Clogged(net.conns[fd])
  {
    if hung {
      var fd :| fd in clients && Hanging(net, clients, fd);
      OpenAreEchoes(net, clients, {fd});
      assert Clogged(net.conns[fd]);
    } else {
      OpenAreEchoes(net, clients, {});
    }
  }

  // ---------------------------------------------------------------- a client that sends without reading

  /** Client 0 sends one byte more than it makes space for, client 1 a single byte; neither ever reads. */
  function GreedyScript(data: seq<Byte>): seq<PeerStep>
    requires data != []
  {
    [Connect(|data| - 1), Connect(BUFFER_SIZE), Deliver(0, data), Deliver(1, [9])]
  }

  function ConnWith(incoming: seq<Byte>, space: nat): Conn {
    NewConn(space).(incoming := incoming)
  }

  /** Two connections in the backlog that have sent this much so far. */
  function TwoWaiting(space: nat, data0: seq<Byte>, data1: seq<Byte>, lowWater: nat): Net {
    Net(map[0 := ConnWith(data0, space), 1 := ConnWith(data1, BUFFER_SIZE)], [0, 1], {}, {}, [Listener], 2, map[],
        lowWater)
  }

  lemma GreedyConnect(space: nat, lowWater: nat)
    ensures var net := Net(map[], [], {}, {}, [], 0, map[], lowWater);
            Apply(Apply(net, Connect(space)), Connect(BUFFER_SIZE)) == TwoWaiting(space, [], [], lowWater)
  {
    var net1 := Net(map[0 := NewConn(space)], [0], {}, {}, [Listener], 1, map[], lowWater);
    assert net1.conns[1 := NewConn(BUFFER_SIZE)] == map[0 := ConnWith([], space), 1 := ConnWith([], BUFFER_SIZE)];
  }

  lemma GreedyDeliver(space: nat, data: seq<Byte>, lowWater: nat)
    requires data != []
    ensures var net := TwoWaiting(space, [], [], lowWater);
            Apply(Apply(net, Deliver(0, data)), Deliver(1, [9])) == TwoWaiting(space, data, [9], lowWater)
  {
    var net, net1 := TwoWaiting(space, [], [], lowWater), TwoWaiting(space, data, [], lowWater);
    assert net.conns[0].incoming + data == data;
    assert net.conns[0 := ConnWith(data, space)] == net1.conns;
    assert Apply(net, Deliver(0, data)) == net1;
    assert net1.conns[1].incoming + [9] == [9];
    assert net1.conns[1 := ConnWith([9], BUFFER_SIZE)] == TwoWaiting(space, data, [9], lowWater).conns;
  }

  lemma GreedyApplies(data: seq<Byte>, lowWater: nat)
    requires data != []
    ensures ApplyAll(Net(map[], [], {}, {}, [], 0, map[], lowWater), GreedyScript(data))
            == TwoWaiting(|data| - 1, data, [9], lowWater)
  {
    var net, script := Net(map[], [], {}, {}, [], 0, map[], lowWater), GreedyScript(data);
    var net1 := Apply(net, script[0]);
    var net2 := Apply(net1, script[1]);
    var net3 := Apply(net2, script[2]);
    GreedyConnect(|data| - 1, lowWater);
    GreedyDeliver(|data| - 1, data, lowWater);
    assert ApplyAll(net, script) == ApplyAll(net1, script[1..]);
    assert ApplyAll(net1, script[1..]) == ApplyAll(net2, script[1..][1..]);
    assert script[1..][1..] == script[2..] && script[2..][1..] == [script[3]];
    assert ApplyAll(net2, script[2..]) == ApplyAll(net3, [script[3]]);
    assert ApplyAll(net3, [script[3]]) == Apply(net3, script[3]);
  }

  /** The peers do all they do before the server makes its first call. */
  method GreedyStart(data: seq<Byte>, lowWater: nat) returns (server: Server)
    requires data != [] && lowWater > 0
    ensures fresh(server) && fresh(server.kernel) && server.Running() && server.clients == map[]
    ensures server.kernel.eager && server.kernel.script == []
    ensures server.kernel.net == TwoWaiting(|data| - 1, data, [9], lowWater)
    ensures Inv(server.kernel.net, server.clients, {}, []) && server.Consistent()
  {
    var kernel := new Kernel(GreedyScript(data), lowWater, true);
    server := new Server(kernel);
    GreedyApplies(data, lowWater);
    kernel.FinishPeers();
  }

  lemma GreedyIsFated(data: seq<Byte>, lowWater: nat)
    requires 0 < lowWater < |data| <= BUFFER_SIZE
    ensures NoReset(TwoWaiting(|data| - 1, data, [9], lowWater))
    ensures Fated(TwoWaiting(|data| - 1, data, [9], lowWater), map[])
  {
    var net := TwoWaiting(|data| - 1, data, [9], lowWater);
    assert WillHang(|data|, 0, |data| - 1, lowWater);
    assert WillHangAt(net, map[], 0);
  }

  /**
   The main loop hangs on these two clients, in whatever order epoll reports events, for every low-water mark at which a
   buffer need not fit.
   */
  method HangsFromTheStart(lowWater: nat) returns (net: Net, hung: bool)
    requires 0 < lowWater < BUFFER_SIZE
    ensures net.lowWater == lowWater && hung && exists fd | fd in net.conns :: Clogged(net.conns[fd])
  {
    var data: seq<Byte> := seq(lowWater + 1, _ => 7);
    var server := GreedyStart(data, lowWater);
    GreedyIsFated(data, lowWater);
    var eventCount := server.Settle();
    net, hung := server.kernel.net, server.hung;
    StandsMeans(net, server.clients, hung);
  }

  // Three rounds of the main loop, each with everything that is ready then, in which client 1 is never served.

  lemma AcceptingKeepsConns(net: Net, clients: Clients, net': Net, clients': Clients)
    requires AcceptedExactly(net, clients, net', clients')
    ensures net'.conns == net.conns && net'.backlog == net.backlog[1..] && net'.lowWater == net.lowWater
    ensures net'.watched == net.watched + {net.backlog[0]}
  {
  }

  /** The first round: only the listening socket is ready. */
  method AcceptRound(server: Server, ghost net: Net)
    requires Inv(server.kernel.net, server.clients, {}, []) && server.Running() && server.kernel.script == []
    requires server.kernel.net == net && net.backlog == [0, 1] && net.watched == {} && server.clients == map[]
    modifies server`clients, server.kernel
    ensures Inv(server.kernel.net, server.clients, {}, []) && server.kernel.script == []
    ensures 0 in server.clients && server.clients[0].Valid() && server.clients[0].Unsent() == []
    ensures server.kernel.net.backlog == [1] && server.kernel.net.watched == {0}
    ensures server.kernel.net.conns == net.conns && server.kernel.net.lowWater == net.lowWater
  {
    var events := [LevelEvent(Listener, false, true, false)];
    assert events[0].source == Listener;
    assert IsReport(net, events, MAX_EPOLL_EVENTS);
    assert [events[0]] + [] == events;
    Reported(net, server.clients, events);
    server.HandleConnEvent(events[0], []);
    AcceptingKeepsConns(net, map[], server.kernel.net, server.clients);
  }

  /** The greedy client's bytes are read at once. */
  method ReadGreedy(server: Server, event: LevelEvent, data: seq<Byte>)
    requires event == LevelEvent(Client(0), false, true, true) && server.Running() && server.kernel.script == []
    requires Inv(server.kernel.net, server.clients, {}, [event]) && server.kernel.eager
    requires 0 in server.clients && server.clients[0].Valid() && server.clients[0].Unsent() == []
    requires 0 < |data| <= BUFFER_SIZE
    requires 0 in server.kernel.net.conns && server.kernel.net.conns[0] == ConnWith(data, |data| - 1)
    requires 1 in server.kernel.net.conns
    modifies server, server.kernel
    ensures Inv(server.kernel.net, server.clients, {}, []) && server.Running() && server.kernel.script == []
    ensures 0 in server.clients && server.clients[0].Valid() && |server.clients[0].Unsent()| == |data|
    ensures 0 in old(server.kernel.net).conns
    ensures server.kernel.net == AfterRead(old(server.kernel.net), 0, |data|)
  {
    assert [event] + [] == [event];
    var _ := server.HandleClientEvent(event, []);
  }

  /** The second round: the listening socket again, and the greedy client's bytes, which are read at once. */
  method ReadRound(server: Server, data: seq<Byte>)
    requires Inv(server.kernel.net, server.clients, {}, []) && server.Running() && server.kernel.script == []
    requires 0 in server.clients && server.clients[0].Valid() && server.clients[0].Unsent() == []
    requires server.kernel.net.backlog == [1] && server.kernel.net.watched == {0} && server.kernel.eager
    requires 0 < server.kernel.net.lowWater < |data| <= BUFFER_SIZE
    requires server.kernel.net.conns == TwoWaiting(|data| - 1, data, [9], server.kernel.net.lowWater).conns
    modifies server, server.kernel
    ensures Inv(server.kernel.net, server.clients, {}, []) && server.Running() && server.kernel.script == []
    ensures 0 in server.clients && server.clients[0].Valid() && |server.clients[0].Unsent()| == |data|
    ensures server.kernel.net.backlog == [] && server.kernel.net.watched == {0, 1}
    ensures server.kernel.net.lowWater == old(server.kernel.net).lowWater
    ensures 0 in server.kernel.net.conns && server.kernel.net.conns[0].space == |data| - 1
    ensures server.kernel.net.conns[0].Idle()
    ensures 1 in server.kernel.net.conns && server.kernel.net.conns[1] == ConnWith([9], BUFFER_SIZE)
  {
    var events := [LevelEvent(Listener, false, true, false), LevelEvent(Client(0), false, true, true)];
    ghost var net0, clients0 := server.kernel.net, server.clients;
    assert events[0].source == Listener && events[1].source == Client(0);
    assert IsReport(net0, events, MAX_EPOLL_EVENTS);
    assert [events[0]] + [events[1]] == events;
    Reported(net0, clients0, events);
    server.HandleConnEvent(events[0], [events[1]]);
    AcceptingKeepsConns(net0, clients0, server.kernel.net, server.clients);
    ReadGreedy(server, events[1], data);
  }

  /** The third round: both clients are ready, and writing the greedy one's bytes back never ends. */
  method HangingRound(server: Server)
    requires Inv(server.kernel.net, server.clients, {}, []) && server.Running() && server.kernel.script == []
    requires server.kernel.net.backlog == [] && server.kernel.net.watched == {0, 1}
    requires 0 in server.clients && server.clients[0].Valid() && 0 in server.kernel.net.conns
    requires server.kernel.net.conns[0].Idle() && server.kernel.net.lowWater < BUFFER_SIZE
    requires server.kernel.net.lowWater <= server.kernel.net.conns[0].space < |server.clients[0].Unsent()|
    requires 1 in server.kernel.net.conns && server.kernel.net.conns[1] == ConnWith([9], BUFFER_SIZE)
    modifies server, server.kernel
    ensures server.hung && Evolves(old(server.kernel.net), server.kernel.net, {0})
  {
    var events := [LevelEvent(Client(0), false, false, true), LevelEvent(Client(1), false, true, true)];
    assert events[0].source == Client(0) && events[1].source == Client(1);
    assert IsReport(server.kernel.net, events, MAX_EPOLL_EVENTS);
    assert [events[0]] + [events[1]] == events;
    Reported(server.kernel.net, server.clients, events);
    assert Starved(server.kernel.net.conns[0], [], 0, |server.clients[0].Unsent()|);
    var _ := server.HandleClientEvent(events[0], [events[1]]);
  }

  lemma StaysUnserved(net: Net, net': Net)
    requires Evolves(net, net', {0}) && 1 in net.conns && net.conns[1] == ConnWith([9], BUFFER_SIZE)
    requires net.lowWater < BUFFER_SIZE
    ensures !AllAtRest(net')
    ensures 1 in net'.conns
    ensures net'.conns[1].incoming != [] && net'.conns[1].space >= BUFFER_SIZE && net'.conns[1].sent == []
  {
    assert ConnEvolves(net.conns[1], net'.conns[1], Client(1) in net'.ready || 1 !in net.watched);
  }

  /** Client 0 never takes the last byte, so that client 1, with input and with space for its echo, is never served. */
  method StarvesAnother(lowWater: nat) returns (net: Net, hung: bool)
    requires 0 < lowWater < BUFFER_SIZE
    ensures hung && !AllAtRest(net)
    ensures 1 in net.conns
    ensures net.conns[1].incoming != [] && net.conns[1].space >= BUFFER_SIZE && net.conns[1].sent == []
  {
    var data: seq<Byte> := seq(lowWater + 1, _ => 7);
    var server := GreedyStart(data, lowWater);
    AcceptRound(server, server.kernel.net);
    ReadRound(server, data);
    ghost var net1 := server.kernel.net;
    HangingRound(server);
    StaysUnserved(net1, server.kernel.net);
    net, hung := server.kernel.net, server.hung;
  }
}
