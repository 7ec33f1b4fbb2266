/**
 The network side of the echo servers: connections, the listening queue, and epoll's ready list.

 Peers act by a finite script. Before every system call takes effect the peers perform some beginning of what is left of
 it, so a property proved of a server holds however the peers' actions interleave with the server's calls.
 */
module Network {

  type Byte = b: int | 0 <= b < 256

  /**
   `received` and `sent` record all bytes the server has read and written so far, `eof` that a read has returned 0.
   */
  datatype Conn = Conn(
    incoming: seq<Byte>,  // arrived, not yet read
    fin: bool,            // the peer will send no more
    reset: bool,          // the peer has aborted the connection
    space: nat,           // bytes the socket accepts for sending
    received: seq<Byte>,
    sent: seq<Byte>,
    eof: bool)
  {
    /** All bytes from the peer that have arrived. */
    function Arrived(): seq<Byte> {
      received + incoming
    }

    predicate Idle() {
      incoming == [] && !fin && !reset
    }
  }

  function NewConn(space: nat): Conn {
    Conn([], false, false, space, [], [], false)
  }

  datatype Source = Listener | Client(fd: nat)

  /**
   `conns` holds the connections open at this end, accepted or still in the backlog; `closed` how the others ended.
   */
  datatype Net = Net(
    conns: map<nat, Conn>,
    backlog: seq<nat>,
    accepted: set<nat>,
    watched: set<nat>,     // registered with epoll
    ready: seq<Source>,    // epoll's edges not yet reported
    next: nat,             // number of connections made so far
    closed: map<nat, Conn>,
    lowWater: nat)         // send space from which on a level-triggered wait reports a socket writable

  predicate NoDuplicates<T(==)>(s: seq<T>) {
    forall i, j | 0 <= i < j < |s| :: s[i] != s[j]
  }

  ghost predicate NetInv(net: Net) {
    && net.lowWater > 0
    && NoDuplicates(net.backlog)
    && NoDuplicates(net.ready)
    && (forall fd | fd in net.backlog :: fd !in net.accepted)
    && (forall fd: nat :: fd in net.conns <==> fd in net.accepted || fd in net.backlog)
    && (forall fd | fd in net.watched :: fd in net.accepted)
    && (forall fd: nat :: fd in net.conns || fd in net.closed <==> fd < net.next)
    && (forall fd | fd in net.conns :: fd !in net.closed)
    && (forall source | source in net.ready :: source.Client? ==> source.fd in net.watched)
    && (forall fd | fd in net.backlog :: Untouched(net.conns[fd]))
  }

  predicate Untouched(c: Conn) {
    c.received == [] && c.sent == [] && !c.eof
  }

  // ---------------------------------------------------------------- what peers do

  datatype PeerStep =
    | Connect(space: nat)
    | Deliver(fd: nat, data: seq<Byte>)
    | Finish(fd: nat)
    | Drain(fd: nat, amount: nat)   // takes bytes off the connection, which makes space for sending
    | Abort(fd: nat)

  function Raise(net: Net, source: Source): Net {
    if source in net.ready || (source.Client? && source.fd !in net.watched) then net
    else net.(ready := net.ready + [source])
  }

  function Update(net: Net, fd: nat, conn: Conn): Net {
    net.(conns := net.conns[fd := conn])
  }

  /** A step about a connection that is not open, or that has ended in that direction, does nothing. */
  function Apply(net: Net, step: PeerStep): Net {
    if step.Connect? then
      Raise(net.(conns := net.conns[net.next := NewConn(step.space)], backlog := net.backlog + [net.next],
                 next := net.next + 1),
            Listener)
    else if step.fd !in net.conns || net.conns[step.fd].reset then net
    else
      var c := net.conns[step.fd];
      match step
      case Deliver(fd, data) =>
        if c.fin || data == [] then net
        else Raise(Update(net, fd, c.(incoming := c.incoming + data)), Client(fd))
      case Finish(fd) =>
        if c.fin then net else Raise(Update(net, fd, c.(fin := true)), Client(fd))
      case Drain(fd, amount) =>
        var net' := Update(net, fd, c.(space := c.space + amount));
        if c.space == 0 && amount > 0 then Raise(net', Client(fd)) else net'
      case Abort(fd) =>
        Raise(Update(net, fd, c.(reset := true)), Client(fd))
  }

  function ApplyAll(net: Net, steps: seq<PeerStep>): Net
    decreases |steps|
  {
    if steps == [] then net else ApplyAll(Apply(net, steps[0]), steps[1..])
  }

  // ---------------------------------------------------------------- what peers cannot change

  /** What happens to a connection while only its peer acts; unless it is `noticed`, nothing the server waits for. */
  predicate ConnEvolves(c: Conn, d: Conn, noticed: bool) {
    && d.received == c.received && d.sent == c.sent && d.eof == c.eof
    && c.incoming <= d.incoming && c.space <= d.space && (c.fin ==> d.fin) && (c.reset ==> d.reset)
    && (c.fin ==> d.incoming == c.incoming)
    && (!noticed ==>
          d.incoming == c.incoming && d.fin == c.fin && d.reset == c.reset && (c.space == 0 ==> d.space == 0))
  }

  /** What can happen to the network while no connection is accepted or closed and only those in `busy` are served. */
  ghost predicate Evolves(net: Net, net': Net, busy: set<nat>) {
    && net'.accepted == net.accepted && net'.watched == net.watched && net'.closed == net.closed
    && net'.lowWater == net.lowWater
    && net.next <= net'.next && net.backlog <= net'.backlog
    && (forall source | source in net.ready :: source in net'.ready)
    && (Listener !in net'.ready ==> net'.backlog == net.backlog)
    && (forall fd | fd in net.conns :: fd in net'.conns)
    && (forall fd | fd in net.conns && fd !in busy ::
          ConnEvolves(net.conns[fd], net'.conns[fd], Client(fd) in net'.ready || fd !in net.watched))
  }

  lemma EvolvesTransitive(a: Net, b: Net, c: Net, busy: set<nat>)
    requires Evolves(a, b, busy) && Evolves(b, c, busy)
    ensures Evolves(a, c, busy)
  {
    forall fd | fd in a.conns && fd !in busy
      ensures ConnEvolves(a.conns[fd], c.conns[fd], Client(fd) in c.ready || fd !in a.watched)
    {
      assert ConnEvolves(a.conns[fd], b.conns[fd], Client(fd) in b.ready || fd !in a.watched);
    }
  }

  lemma RaiseKeepsInv(net: Net, source: Source)
    requires NetInv(net)
    ensures var net' := Raise(net, source);
            && NetInv(net')
            && net' == net.(ready := net'.ready)
            && (forall other | other in net.ready :: other in net'.ready)
            && (source in net'.ready || (source.Client? && source.fd !in net.watched))
  {
  }

  lemma UpdateKeepsInv(net: Net, fd: nat, conn: Conn)
    requires NetInv(net) && fd in net.conns && (fd in net.backlog ==> Untouched(conn))
    ensures NetInv(Update(net, fd, conn))
  {
  }

  lemma ConnectKeepsInv(net: Net, space: nat)
    requires NetInv(net)
    ensures NetInv(net.(conns := net.conns[net.next := NewConn(space)], backlog := net.backlog + [net.next],
                        next := net.next + 1))
  {
    assert net.next !in net.conns && net.next !in net.accepted && net.next !in net.backlog;
  }

  lemma ApplyKeepsInv(net: Net, step: PeerStep)
    requires NetInv(net)
    ensures NetInv(Apply(net, step))
  {
    if step.Connect? {
      ConnectKeepsInv(net, step.space);
      var net1 := net.(conns := net.conns[net.next := NewConn(step.space)], backlog := net.backlog + [net.next],
                       next := net.next + 1);
      RaiseKeepsInv(net1, Listener);
    } else if step.fd in net.conns && !net.conns[step.fd].reset {
      var conn' := Apply(net, step).conns[step.fd];
      UpdateKeepsInv(net, step.fd, conn');
      RaiseKeepsInv(Update(net, step.fd, conn'), Client(step.fd));
    }
  }

  function DataOf(step: PeerStep): seq<Byte> {
    if step.Deliver? then step.data else []
  }

  /** What a step does to connection `fd`: an edge is left if it brings anything the server may be waiting for. */
  lemma {:induction false} ApplyToConn(net: Net, step: PeerStep, fd: nat)
    requires NetInv(net) && fd in net.conns
    ensures var net' := Apply(net, step);
            && fd in net'.conns
            && ConnEvolves(net.conns[fd], net'.conns[fd], Client(fd) in net'.ready || fd !in net.watched)
            && |net'.conns[fd].incoming| <= |net.conns[fd].incoming| + |DataOf(step)|
  {
    if step.Connect? {
      assert fd != net.next;
    } else if step.fd != fd {
      assert Apply(net, step).conns[fd] == net.conns[fd];
    }
  }

  /** What a step does to everything but the connections. */
  lemma ApplyToRest(net: Net, step: PeerStep)
    requires NetInv(net)
    ensures var net' := Apply(net, step);
            && net'.accepted == net.accepted && net'.watched == net.watched && net'.closed == net.closed
            && net'.lowWater == net.lowWater
            && net.next <= net'.next
            && net.backlog <= net'.backlog && |net'.backlog| <= |net.backlog| + (if step.Connect? then 1 else 0)
            && (forall source | source in net.ready :: source in net'.ready)
            && |net'.ready| <= |net.ready| + 1
            && (Listener !in net'.ready ==> net'.backlog == net.backlog)
  {
  }

  lemma ApplyEvolves(net: Net, step: PeerStep)
    requires NetInv(net)
    ensures Evolves(net, Apply(net, step), {})
  {
    var net' := Apply(net, step);
    ApplyToRest(net, step);
    forall fd | fd in net.conns
      ensures fd in net'.conns
      ensures ConnEvolves(net.conns[fd], net'.conns[fd], Client(fd) in net'.ready || fd !in net.watched)
    {
      ApplyToConn(net, step, fd);
    }
  }

  lemma {:induction false} ApplyAllEvolves(net: Net, steps: seq<PeerStep>)
    requires NetInv(net)
    ensures NetInv(ApplyAll(net, steps)) && Evolves(net, ApplyAll(net, steps), {})
    decreases |steps|
  {
    if steps != [] {
      ApplyKeepsInv(net, steps[0]);
      ApplyEvolves(net, steps[0]);
      ApplyAllEvolves(Apply(net, steps[0]), steps[1..]);
      EvolvesTransitive(net, Apply(net, steps[0]), ApplyAll(net, steps), {});
    }
  }

  // ---------------------------------------------------------------- what is left to do

  function BytesToCome(script: seq<PeerStep>): nat {
    if script == [] then 0
    else |DataOf(script[0])| + BytesToCome(script[1..])
  }

  /** Bytes that connection `fd` can still have read from it. */
  function InputLeft(net: Net, script: seq<PeerStep>, fd: nat): nat {
    (if fd in net.conns then |net.conns[fd].incoming| else 0) + BytesToCome(script)
  }

  /** Bounds the edges that can still be reported, each connection to come counting double. */
  function Work(net: Net, script: seq<PeerStep>): nat {
    4 * |script| + 2 * |net.backlog| + |net.ready|
  }

  /** There is no more left to do or to read than before. */
  ghost predicate NoMoreLeft(net0: Net, script0: seq<PeerStep>, net: Net, script: seq<PeerStep>) {
    && |script| <= |script0| && Work(net, script) <= Work(net0, script0)
    && (forall fd | fd in net0.conns && fd in net.conns :: InputLeft(net, script, fd) <= InputLeft(net0, script0, fd))
  }

  lemma NoMoreThanNoMore(net0: Net, script0: seq<PeerStep>, net1: Net, script1: seq<PeerStep>, net2: Net,
                         script2: seq<PeerStep>)
    requires NoMoreLeft(net0, script0, net1, script1) && NoMoreLeft(net1, script1, net2, script2)
    requires forall fd | fd in net0.conns :: fd in net1.conns
    ensures NoMoreLeft(net0, script0, net2, script2)
  {
  }

  lemma ApplyLeaves(net: Net, script: seq<PeerStep>, fd: nat)
    requires NetInv(net) && script != []
    ensures var net' := Apply(net, script[0]);
            && Work(net', script[1..]) < Work(net, script)
            && (fd in net.conns ==> fd in net'.conns && InputLeft(net', script[1..], fd) <= InputLeft(net, script, fd))
  {
    ApplyToRest(net, script[0]);
    if fd in net.conns {
      ApplyToConn(net, script[0], fd);
    }
  }

  lemma {:induction false} ApplyAllLeaves(net: Net, script: seq<PeerStep>, k: nat, fd: nat)
    requires NetInv(net) && k <= |script|
    ensures var net' := ApplyAll(net, script[..k]);
            && Work(net', script[k..]) <= Work(net, script)
            && (fd in net.conns ==> fd in net'.conns && InputLeft(net', script[k..], fd) <= InputLeft(net, script, fd))
    decreases k
  {
    if k > 0 {
      ApplyLeaves(net, script, fd);
      ApplyKeepsInv(net, script[0]);
      ApplyAllLeaves(Apply(net, script[0]), script[1..], k - 1, fd);
      assert script[..k][0] == script[0] && script[..k][1..] == script[1..][..k - 1];
      assert script[k..] == script[1..][k - 1..];
    } else {
      assert script[..0] == [] && script[0..] == script;
    }
  }

  // ---------------------------------------------------------------- what can still be sent

  /** The space that the peers are still going to make on connection `fd`. */
  function SpaceToCome(script: seq<PeerStep>, fd: nat): nat {
    if script == [] then 0
    else (if script[0].Drain? && script[0].fd == fd then script[0].amount else 0) + SpaceToCome(script[1..], fd)
  }

  predicate Aborts(script: seq<PeerStep>, fd: nat) {
    script != [] && (script[0] == Abort(fd) || Aborts(script[1..], fd))
  }

  /** There will never be space for `size` bytes, nor an abort that ends the waiting for it. */
  predicate Starved(c: Conn, script: seq<PeerStep>, fd: nat, size: nat) {
    !c.reset && !Aborts(script, fd) && c.space + SpaceToCome(script, fd) < size
  }

  /** The bytes that the peers are still going to send on connection `fd`, up to its end. */
  function ToArrive(script: seq<PeerStep>, fd: nat): seq<Byte> {
    if script == [] || script[0] == Finish(fd) || script[0] == Abort(fd) then []
    else (if script[0].Deliver? && script[0].fd == fd then script[0].data else []) + ToArrive(script[1..], fd)
  }

  predicate Finishes(script: seq<PeerStep>, fd: nat) {
    script != [] && (script[0] == Finish(fd) || Finishes(script[1..], fd))
  }

  /** The bytes on connection `fd` that the server can still read. */
  function ToRead(c: Conn, script: seq<PeerStep>, fd: nat): seq<Byte> {
    if c.fin || c.reset then c.incoming else c.incoming + ToArrive(script, fd)
  }

  /**
   What the peer makes of its connection over the whole run: it sends `input`, and aborts the connection then or
   later; or it does not, finishes or not, and takes so much that the server can send `capacity` bytes in all.
   */
  datatype Outlook = Aborted(input: seq<Byte>) | Lasting(input: seq<Byte>, finishes: bool, capacity: nat)

  function OutlookOf(c: Conn, script: seq<PeerStep>, fd: nat): Outlook {
    if c.reset || Aborts(script, fd) then Aborted(c.received + ToRead(c, script, fd))
    else
      Lasting(c.received + ToRead(c, script, fd), c.fin || Finishes(script, fd),
              |c.sent| + c.space + SpaceToCome(script, fd))
  }

  /** What a step makes of connection `fd`. */
  function AfterStep(c: Conn, step: PeerStep, fd: nat): Conn {
    if step.Connect? || step.fd != fd || c.reset then c
    else
      match step
      case Deliver(_, data) => if c.fin then c else c.(incoming := c.incoming + data)
      case Finish(_) => c.(fin := true)
      case Drain(_, amount) => c.(space := c.space + amount)
      case Abort(_) => c.(reset := true)
  }

  lemma ApplyIsAfterStep(net: Net, step: PeerStep, fd: nat)
    requires NetInv(net) && fd in net.conns
    ensures fd in Apply(net, step).conns && Apply(net, step).conns[fd] == AfterStep(net.conns[fd], step, fd)
  {
    ApplyToConn(net, step, fd);
  }

  lemma StepKeepsInput(c: Conn, script: seq<PeerStep>, fd: nat)
    requires script != []
    ensures ToRead(AfterStep(c, script[0], fd), script[1..], fd) == ToRead(c, script, fd)
  {
    var later := ToArrive(script[1..], fd);
    match script[0]
    case Deliver(other, data) =>
      assert c.incoming + data + later == c.incoming + (data + later);
      assert [] + later == later;
    case Finish(other) =>
      assert c.incoming + [] == c.incoming && [] + later == later;
    case Abort(other) =>
      assert c.incoming + [] == c.incoming && [] + later == later;
    case _ =>
      assert [] + later == later;
  }

  lemma StepKeepsOutlook(c: Conn, script: seq<PeerStep>, fd: nat)
    requires script != []
    ensures OutlookOf(AfterStep(c, script[0], fd), script[1..], fd) == OutlookOf(c, script, fd)
  {
    var c', step, later := AfterStep(c, script[0], fd), script[0], script[1..];
    assert Aborts(script, fd) <==> step == Abort(fd) || Aborts(later, fd);
    if !c.reset && !Aborts(script, fd) {
      assert |c'.sent| + c'.space + SpaceToCome(later, fd) == |c.sent| + c.space + SpaceToCome(script, fd);
      assert c'.fin || Finishes(later, fd) <==> c.fin || Finishes(script, fd);
    }
    StepKeepsInput(c, script, fd);
  }

  /** No step and no call changes the outlook. */
  lemma ApplyKeepsOutlook(net: Net, script: seq<PeerStep>, fd: nat)
    requires NetInv(net) && fd in net.conns && script != []
    ensures var net' := Apply(net, script[0]);
            fd in net'.conns && OutlookOf(net'.conns[fd], script[1..], fd) == OutlookOf(net.conns[fd], script, fd)
  {
    ApplyIsAfterStep(net, script[0], fd);
    StepKeepsOutlook(net.conns[fd], script, fd);
  }

  lemma WriteKeepsOutlook(net: Net, script: seq<PeerStep>, fd: nat, data: seq<Byte>, n: int)
    requires fd in net.conns && n <= |data| && n <= net.conns[fd].space
    ensures OutlookOf(AfterWrite(net, fd, data, n).conns[fd], script, fd) == OutlookOf(net.conns[fd], script, fd)
  {
  }

  lemma TakenIsReceived(c: Conn, script: seq<PeerStep>, fd: nat, n: nat)
    requires n <= |c.incoming|
    ensures var c' := c.(incoming := c.incoming[n..], received := c.received + c.incoming[..n]);
            c'.received + ToRead(c', script, fd) == c.received + ToRead(c, script, fd)
  {
    assert c.incoming == c.incoming[..n] + c.incoming[n..];
    Regroup(c.received, c.incoming[..n], c.incoming[n..], ToArrive(script, fd));
  }

  lemma Regroup(a: seq<Byte>, b: seq<Byte>, c: seq<Byte>, d: seq<Byte>)
    ensures a + b + c == a + (b + c) && a + b + (c + d) == a + (b + c + d)
  {
  }

  lemma ReadKeepsOutlook(net: Net, script: seq<PeerStep>, fd: nat, n: int)
    requires fd in net.conns && n <= |net.conns[fd].incoming|
    ensures OutlookOf(AfterRead(net, fd, n).conns[fd], script, fd) == OutlookOf(net.conns[fd], script, fd)
  {
    if n > 0 {
      TakenIsReceived(net.conns[fd], script, fd, n);
    }
  }

  lemma {:induction false} ApplyAllKeepsOutlook(net: Net, script: seq<PeerStep>, k: nat, fd: nat)
    requires NetInv(net) && fd in net.conns && k <= |script|
    ensures var net' := ApplyAll(net, script[..k]);
            fd in net'.conns && OutlookOf(net'.conns[fd], script[k..], fd) == OutlookOf(net.conns[fd], script, fd)
    decreases k
  {
    if k > 0 {
      ApplyKeepsOutlook(net, script, fd);
      ApplyKeepsInv(net, script[0]);
      ApplyAllKeepsOutlook(Apply(net, script[0]), script[1..], k - 1, fd);
      assert script[..k][0] == script[0] && script[..k][1..] == script[1..][..k - 1];
      assert script[k..] == script[1..][k - 1..];
    } else {
      assert script[..0] == [] && script[0..] == script;
    }
  }

  // ---------------------------------------------------------------- system calls

  datatype Errno = EAGAIN | ECONNRESET | EPIPE

  /** What `read` of at most `size` bytes may return. Data that arrived before an abort may or may not still be read. */
  predicate ReadOutcome(c: Conn, size: nat, n: int, errno: Errno) {
    if n > 0 then n <= size && n <= |c.incoming|
    else if n == 0 then c.incoming == [] && c.fin && !c.reset
    else n == -1 && if errno == EAGAIN then c.Idle() else c.reset
  }

  function AfterRead(net: Net, fd: nat, n: int): Net
    requires fd in net.conns && n <= |net.conns[fd].incoming|
  {
    var c := net.conns[fd];
    if n > 0 then Update(net, fd, c.(incoming := c.incoming[n..], received := c.received + c.incoming[..n]))
    else if n == 0 then Update(net, fd, c.(eof := true))
    else net
  }

  /** What `write` of `size` bytes may return: any short count, as long as some bytes fit. */
  predicate WriteOutcome(c: Conn, size: nat, n: int, errno: Errno) {
    if n >= 0 then 1 <= n <= size && n <= c.space && !c.reset
    else n == -1 && if errno == EAGAIN then c.space == 0 && !c.reset else c.reset
  }

  function AfterWrite(net: Net, fd: nat, data: seq<Byte>, n: int): Net
    requires fd in net.conns && n <= |data| && n <= net.conns[fd].space
  {
    var c := net.conns[fd];
    if n > 0 then Update(net, fd, c.(space := c.space - n, sent := c.sent + data[..n])) else net
  }

  /** Registration reports a socket that is ready already. */
  function AfterEpollAdd(net: Net, fd: nat): Net
    requires fd in net.conns
  {
    var c := net.conns[fd];
    var net' := net.(watched := net.watched + {fd});
    if c.Idle() && c.space == 0 then net' else Raise(net', Client(fd))
  }

  function Without(ready: seq<Source>, source: Source): (rest: seq<Source>)
    ensures |rest| <= |ready|
    ensures forall other :: other in rest <==> other in ready && other != source
  {
    if ready == [] then []
    else if ready[0] == source then Without(ready[1..], source)
    else [ready[0]] + Without(ready[1..], source)
  }

  /** Closing a socket also takes it out of epoll. */
  function AfterClose(net: Net, fd: nat): Net
    requires fd in net.conns
  {
    net.(conns := net.conns - {fd}, accepted := net.accepted - {fd}, watched := net.watched - {fd},
         ready := Without(net.ready, Client(fd)), closed := net.closed[fd := net.conns[fd]])
  }

  function AfterAccept(net: Net): Net
    requires net.backlog != []
  {
    net.(backlog := net.backlog[1..], accepted := net.accepted + {net.backlog[0]})
  }

  lemma BusyEvolves(net: Net, net': Net, fd: nat)
    requires Evolves(net, net', {})
    ensures Evolves(net, net', {fd})
  {
  }

  lemma ServeEvolves(net: Net, mid: Net, fd: nat, conn: Conn)
    requires NetInv(mid) && Evolves(net, mid, {}) && fd in net.conns && fd in mid.accepted
    ensures NetInv(Update(mid, fd, conn)) && Evolves(net, Update(mid, fd, conn), {fd})
  {
    UpdateKeepsInv(mid, fd, conn);
  }

  /** Reading serves one connection, and leaves it less to read. */
  lemma {:induction false} ReadEvolves(net: Net, mid: Net, script: seq<PeerStep>, fd: nat, n: int)
    requires NetInv(mid) && Evolves(net, mid, {}) && fd in net.conns && fd in mid.accepted
    requires n <= |mid.conns[fd].incoming|
    ensures var net' := AfterRead(mid, fd, n);
            && NetInv(net') && Evolves(net, net', {fd})
            && Work(net', script) == Work(mid, script)
            && (forall other | other in mid.conns :: InputLeft(net', script, other) <= InputLeft(mid, script, other))
            && NoMoreLeft(mid, script, net', script)
            && (n > 0 ==> InputLeft(net', script, fd) < InputLeft(mid, script, fd))
  {
    ServeEvolves(net, mid, fd, AfterRead(mid, fd, n).conns[fd]);
    assert AfterRead(mid, fd, n) == Update(mid, fd, AfterRead(mid, fd, n).conns[fd]);
  }

  lemma WriteEvolves(net: Net, mid: Net, script: seq<PeerStep>, fd: nat, data: seq<Byte>, n: int)
    requires NetInv(mid) && Evolves(net, mid, {}) && fd in net.conns && fd in mid.accepted
    requires n <= |data| && n <= mid.conns[fd].space
    ensures var net' := AfterWrite(mid, fd, data, n);
            && NetInv(net') && Evolves(net, net', {fd})
            && Work(net', script) == Work(mid, script)
            && (forall other | other in mid.conns :: InputLeft(net', script, other) == InputLeft(mid, script, other))
            && NoMoreLeft(mid, script, net', script)
  {
    ServeEvolves(net, mid, fd, AfterWrite(mid, fd, data, n).conns[fd]);
    assert AfterWrite(mid, fd, data, n) == Update(mid, fd, AfterWrite(mid, fd, data, n).conns[fd]);
  }

  /** Two writes in a row, the second of what the first has left. */
  lemma WriteTwice(net: Net, fd: nat, data: seq<Byte>, n: nat, more: nat)
    requires fd in net.conns && n + more <= |data| && n + more <= net.conns[fd].space
    ensures AfterWrite(AfterWrite(net, fd, data, n), fd, data[n..], more) == AfterWrite(net, fd, data, n + more)
  {
    PiecesJoin(net.conns[fd].sent, data, n, more);
    var end := AfterWrite(net, fd, data, n + more).conns[fd];
    assert n > 0 && more > 0 ==>
             Update(Update(net, fd, AfterWrite(net, fd, data, n).conns[fd]), fd, end) == Update(net, fd, end);
  }

  /**
   A blocking write begun on `net` that has sent `done` bytes of `data` so far, with `script` still to come.
   */
  ghost predicate Writing(net0: Net, script0: seq<PeerStep>, net: Net, script: seq<PeerStep>, fd: nat, data: seq<Byte>,
                          done: nat)
  {
    && NetInv(net) && Evolves(net0, net, {fd})
    && fd in net0.conns && fd in net0.accepted && fd in net.conns && done <= |data|
    && (script0 == [] ==> script == [] && done <= net0.conns[fd].space && net == AfterWrite(net0, fd, data, done))
    && InputLeft(net, script, fd) <= InputLeft(net0, script0, fd)
    && var c0, c := net0.conns[fd], net.conns[fd];
       && c.received == c0.received && c.sent == c0.sent + data[..done] && c.eof == c0.eof
       && OutlookOf(c, script, fd) == OutlookOf(c0, script0, fd)
  }

  lemma WritingBegins(net: Net, script: seq<PeerStep>, fd: nat, data: seq<Byte>)
    requires NetInv(net) && fd in net.accepted
    ensures Writing(net, script, net, script, fd, data, 0)
  {
    assert net.conns[fd].sent + data[..0] == net.conns[fd].sent;
  }

  /** The peers act, and then some more bytes may be sent. */
  lemma WritingGoesOn(net0: Net, script0: seq<PeerStep>, net: Net, script: seq<PeerStep>, fd: nat, data: seq<Byte>,
                      done: nat, mid: Net, net': Net, script': seq<PeerStep>, n: nat)
    requires Writing(net0, script0, net, script, fd, data, done)
    requires Evolves(net, mid, {}) && fd in mid.conns && n <= |data| - done && n <= mid.conns[fd].space
    requires net' == AfterWrite(mid, fd, data[done..], n) && NetInv(net') && Evolves(net, net', {fd})
    requires script == [] ==> script' == [] && mid == net
    requires OutlookOf(net'.conns[fd], script', fd) == OutlookOf(net.conns[fd], script, fd)
    requires InputLeft(net', script', fd) <= InputLeft(net, script, fd)
    ensures Writing(net0, script0, net', script', fd, data, done + n)
  {
    EvolvesTransitive(net0, net, net', {fd});
    StreamAdds(net0, net, mid, net', fd, data, done, n);
    if script0 == [] {
      WriteTwice(net0, fd, data, done, n);
    }
  }

  /** Whether a write could come to its end was settled when it began. */
  lemma WritingEnds(net0: Net, script0: seq<PeerStep>, net: Net, script: seq<PeerStep>, fd: nat, data: seq<Byte>,
                    done: nat)
    requires Writing(net0, script0, net, script, fd, data, done)
    ensures done == |data| || net.conns[fd].reset ==> !Starved(net0.conns[fd], script0, fd, |data|)
    ensures done < |data| && script == [] && net.conns[fd].space == 0 && !net.conns[fd].reset ==>
              Starved(net0.conns[fd], script0, fd, |data|)
  {
  }

  lemma StreamAdds(net0: Net, net: Net, mid: Net, net': Net, fd: nat, data: seq<Byte>, done: nat, n: nat)
    requires fd in net0.conns && fd in net.conns && done <= |data|
    requires net.conns[fd].sent == net0.conns[fd].sent + data[..done]
    requires Evolves(net, mid, {}) && fd in mid.conns && n <= |data| - done && n <= mid.conns[fd].space
    requires net' == AfterWrite(mid, fd, data[done..], n)
    ensures var c, c' := net.conns[fd], net'.conns[fd];
            c'.sent == net0.conns[fd].sent + data[..done + n] && c'.received == c.received && c'.eof == c.eof
  {
    assert ConnEvolves(net.conns[fd], mid.conns[fd], Client(fd) in mid.ready || fd !in net.watched);
    PiecesJoin(net0.conns[fd].sent, data, done, n);
  }

  lemma PiecesJoin(sent: seq<Byte>, data: seq<Byte>, n: nat, more: nat)
    requires n + more <= |data|
    ensures sent + data[..n] + data[n..][..more] == sent + data[..n + more]
  {
    assert data[..n] + data[n..][..more] == data[..n + more];
  }

  lemma {:induction false} WithoutKeepsOrder(ready: seq<Source>, source: Source)
    requires NoDuplicates(ready)
    ensures NoDuplicates(Without(ready, source))
  {
    if ready != [] {
      assert forall k | 0 < k < |ready| :: ready[k] != ready[0];
      assert NoDuplicates(ready[1..]);
      WithoutKeepsOrder(ready[1..], source);
      assert ready[0] !in ready[1..];
    }
  }

  lemma {:induction false} CloseKeepsInv(net: Net, fd: nat)
    requires NetInv(net) && fd in net.accepted
    ensures NetInv(AfterClose(net, fd))
  {
    WithoutKeepsOrder(net.ready, Client(fd));
  }

  lemma AcceptKeepsInv(net: Net)
    requires NetInv(net) && net.backlog != []
    ensures NetInv(AfterAccept(net))
  {
    var net', fd := AfterAccept(net), net.backlog[0];
    assert forall k | 0 < k < |net.backlog| :: net.backlog[k] != fd;
    assert forall other :: other in net'.backlog <==> other in net.backlog && other != fd;
  }

  lemma EpollAddKeepsInv(net: Net, fd: nat)
    requires NetInv(net) && fd in net.accepted && fd !in net.watched
    ensures var net' := AfterEpollAdd(net, fd);
            NetInv(net') && net'.backlog == net.backlog && |net'.ready| <= |net.ready| + 1
  {
  }

  // ---------------------------------------------------------------- the plan of the peers

  /** How many connections the peers make. */
  function Connects(script: seq<PeerStep>): nat {
    if script == [] then 0 else (if script[0].Connect? then 1 else 0) + Connects(script[1..])
  }

  /** What the peer is going to make of connection `fd`, the next connection to be made being number `next`. */
  function Prospect(next: nat, script: seq<PeerStep>, fd: nat): Outlook
    decreases script
  {
    if script == [] then Lasting([], false, 0)
    else if script[0].Connect? then
      if fd == next then OutlookOf(NewConn(script[0].space), script[1..], fd) else Prospect(next + 1, script[1..], fd)
    else Prospect(next, script[1..], fd)
  }

  /** How a connection must stand when it is closed: unless its peer aborts it, its whole input has been sent back. */
  predicate EndsAs(c: Conn, outlook: Outlook) {
    && c.sent <= outlook.input
    && (outlook.Lasting? ==> outlook.finishes && |outlook.input| <= outlook.capacity && c.sent == outlook.input)
  }

  predicate ConnAsPlanned(plan: seq<PeerStep>, net: Net, script: seq<PeerStep>, fd: nat) {
    var outlook := Prospect(0, plan, fd);
    if fd in net.conns then OutlookOf(net.conns[fd], script, fd) == outlook
    else if fd in net.closed then EndsAs(net.closed[fd], outlook)
    else Prospect(net.next, script, fd) == outlook
  }

  /** The peers, who still have `script` to do, have been following their plan from the start. */
  ghost predicate AsPlanned(plan: seq<PeerStep>, net: Net, script: seq<PeerStep>) {
    && net.next + Connects(script) == Connects(plan)
    && forall fd: nat :: ConnAsPlanned(plan, net, script, fd)
  }

  lemma ApplyMakes(net: Net, step: PeerStep)
    ensures var net' := Apply(net, step);
            if step.Connect? then net'.next == net.next + 1 && net'.conns == net.conns[net.next := NewConn(step.space)]
            else net'.next == net.next && net'.conns.Keys == net.conns.Keys
  {
  }

  lemma ApplyToNew(net: Net, script: seq<PeerStep>, fd: nat)
    requires NetInv(net) && script != [] && fd !in net.conns && fd !in net.closed
    ensures var net' := Apply(net, script[0]);
            && fd !in net'.closed
            && (if fd in net'.conns then OutlookOf(net'.conns[fd], script[1..], fd) == Prospect(net.next, script, fd)
                else Prospect(net'.next, script[1..], fd) == Prospect(net.next, script, fd))
  {
    ApplyToRest(net, script[0]);
    ApplyMakes(net, script[0]);
  }

  lemma ApplyKeepsPlan(plan: seq<PeerStep>, net: Net, script: seq<PeerStep>)
    requires NetInv(net) && script != [] && AsPlanned(plan, net, script)
    ensures AsPlanned(plan, Apply(net, script[0]), script[1..])
  {
    var net' := Apply(net, script[0]);
    ApplyToRest(net, script[0]);
    forall fd: nat
      ensures ConnAsPlanned(plan, net', script[1..], fd)
    {
      assert ConnAsPlanned(plan, net, script, fd);
      if fd in net.conns {
        ApplyKeepsOutlook(net, script, fd);
      } else if fd in net.closed {
        ApplyKeepsInv(net, script[0]);
      } else {
        ApplyToNew(net, script, fd);
      }
    }
  }

  lemma {:induction false} ApplyAllKeepsPlan(plan: seq<PeerStep>, net: Net, script: seq<PeerStep>, k: nat)
    requires NetInv(net) && k <= |script| && AsPlanned(plan, net, script)
    ensures AsPlanned(plan, ApplyAll(net, script[..k]), script[k..])
    decreases k
  {
    if k > 0 {
      ApplyKeepsPlan(plan, net, script);
      ApplyKeepsInv(net, script[0]);
      ApplyAllKeepsPlan(plan, Apply(net, script[0]), script[1..], k - 1);
      assert script[..k][0] == script[0] && script[..k][1..] == script[1..][..k - 1];
      assert script[k..] == script[1..][k - 1..];
    } else {
      assert script[..0] == [] && script[0..] == script;
    }
  }

  /** A call that leaves the outlook of connection `fd` as it was, and all the others as they were. */
  lemma CallKeepsPlan(plan: seq<PeerStep>, net: Net, net': Net, script: seq<PeerStep>, fd: nat)
    requires AsPlanned(plan, net, script) && fd in net.conns && fd in net'.conns
    requires net'.next == net.next && net'.closed == net.closed && net'.conns == net.conns[fd := net'.conns[fd]]
    requires OutlookOf(net'.conns[fd], script, fd) == OutlookOf(net.conns[fd], script, fd)
    ensures AsPlanned(plan, net', script)
  {
    forall other: nat
      ensures ConnAsPlanned(plan, net', script, other)
    {
      assert ConnAsPlanned(plan, net, script, other);
    }
  }

  lemma SameConns(plan: seq<PeerStep>, net: Net, net': Net, script: seq<PeerStep>)
    requires net'.next == net.next && net'.closed == net.closed && net'.conns == net.conns
    ensures AsPlanned(plan, net, script) ==> AsPlanned(plan, net', script)
  {
    if AsPlanned(plan, net, script) {
      forall fd: nat
        ensures ConnAsPlanned(plan, net', script, fd)
      {
        assert ConnAsPlanned(plan, net, script, fd);
      }
    }
  }

  lemma ClosingKeepsPlan(plan: seq<PeerStep>, net: Net, script: seq<PeerStep>, fd: nat)
    requires AsPlanned(plan, net, script) && fd in net.conns
    requires EndsAs(net.conns[fd], OutlookOf(net.conns[fd], script, fd))
    ensures AsPlanned(plan, AfterClose(net, fd), script)
  {
    forall other: nat
      ensures ConnAsPlanned(plan, AfterClose(net, fd), script, other)
    {
      assert ConnAsPlanned(plan, net, script, other);
    }
  }

  /** Nothing has happened yet. */
  lemma StartAsPlanned(plan: seq<PeerStep>, lowWater: nat)
    ensures AsPlanned(plan, Net(map[], [], {}, {}, [], 0, map[], lowWater), plan)
  {
    forall fd: nat
      ensures ConnAsPlanned(plan, Net(map[], [], {}, {}, [], 0, map[], lowWater), plan, fd)
    {
    }
  }

  /** All that a read changes and does not change, the peers having acted before it took effect. */
  lemma ReadServes(plan: seq<PeerStep>, net: Net, script: seq<PeerStep>, mid: Net, script': seq<PeerStep>, fd: nat,
                   n: int)
    requires NetInv(mid) && Evolves(net, mid, {}) && NoMoreLeft(net, script, mid, script')
    requires fd in net.conns && fd in mid.accepted && n <= |mid.conns[fd].incoming|
    ensures var net' := AfterRead(mid, fd, n);
            && NetInv(net') && Evolves(net, net', {fd}) && NoMoreLeft(net, script, net', script')
            && (n > 0 ==> InputLeft(net', script', fd) < InputLeft(net, script, fd))
            && fd in net'.conns && OutlookOf(net'.conns[fd], script', fd) == OutlookOf(mid.conns[fd], script', fd)
            && (AsPlanned(plan, mid, script') ==> AsPlanned(plan, net', script'))
  {
    ReadEvolves(net, mid, script', fd, n);
    ReadKeepsOutlook(mid, script', fd, n);
    NoMoreThanNoMore(net, script, mid, script', AfterRead(mid, fd, n), script');
    if AsPlanned(plan, mid, script') {
      CallKeepsPlan(plan, mid, AfterRead(mid, fd, n), script', fd);
    }
  }

  /** The same for a write. */
  lemma WriteServes(plan: seq<PeerStep>, net: Net, script: seq<PeerStep>, mid: Net, script': seq<PeerStep>, fd: nat,
                    data: seq<Byte>, n: int)
    requires NetInv(mid) && Evolves(net, mid, {}) && NoMoreLeft(net, script, mid, script')
    requires fd in net.conns && fd in mid.accepted && n <= |data| && n <= mid.conns[fd].space
    ensures var net' := AfterWrite(mid, fd, data, n);
            && NetInv(net') && Evolves(net, net', {fd}) && NoMoreLeft(net, script, net', script')
            && fd in net'.conns && OutlookOf(net'.conns[fd], script', fd) == OutlookOf(mid.conns[fd], script', fd)
            && (AsPlanned(plan, mid, script') ==> AsPlanned(plan, net', script'))
  {
    WriteEvolves(net, mid, script', fd, data, n);
    WriteKeepsOutlook(mid, script', fd, data, n);
    NoMoreThanNoMore(net, script, mid, script', AfterWrite(mid, fd, data, n), script');
    if AsPlanned(plan, mid, script') {
      CallKeepsPlan(plan, mid, AfterWrite(mid, fd, data, n), script', fd);
    }
  }
}
