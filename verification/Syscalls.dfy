/**
 The system calls the echo servers make, on the network of module `Network`.

 Every call first lets the peers act; the ghost result `mid` is the network at the moment the call takes effect.
 */
module Syscalls {
  import opened Network

  /** What epoll_wait reports about a socket. */
  datatype Event = Event(source: Source, hangup: bool)

  /** What a level-triggered epoll_wait reports about a socket. */
  datatype LevelEvent = LevelEvent(source: Source, hangup: bool, readable: bool, writable: bool)

  predicate IsLevelOf(net: Net, event: LevelEvent) {
    match event.source
    case Listener => net.backlog != []
    case Client(fd) =>
      && fd in net.watched && fd in net.conns
      && var c := net.conns[fd];
         event.hangup == c.reset && event.readable == !c.Idle() && event.writable == (c.space >= net.lowWater)
  }

  predicate IsReady(net: Net, source: Source) {
    match source
    case Listener => net.backlog != []
    case Client(fd) =>
      fd in net.watched && fd in net.conns && (!net.conns[fd].Idle() || net.conns[fd].space >= net.lowWater)
  }

  predicate Reports(events: seq<LevelEvent>, source: Source) {
    exists i | 0 <= i < |events| :: events[i].source == source
  }

  /** What a level-triggered wait may report: distinct sockets, truthfully, and all that are ready if they fit. */
  ghost predicate IsReport(net: Net, events: seq<LevelEvent>, maxEvents: nat) {
    && |events| <= maxEvents
    && (forall i | 0 <= i < |events| :: IsLevelOf(net, events[i]))
    && (forall i, j | 0 <= i < j < |events| :: events[i].source != events[j].source)
    && (|events| < maxEvents ==> forall source | IsReady(net, source) :: Reports(events, source))
  }

  /** Sockets that are ready, the listening one first, the others in any order; all of them, if they fit. */
  method LevelEvents(net: Net, maxEvents: nat) returns (events: seq<LevelEvent>)
    requires NetInv(net) && maxEvents > 0
    ensures IsReport(net, events, maxEvents) && |events| <= |net.watched| + 1
  {
    events := [];
    if net.backlog != [] {
      events := [LevelEvent(Listener, false, true, false)];
      assert events[0].source == Listener;
    }
    var todo := net.watched;
    while todo != {} && |events| < maxEvents
      invariant todo <= net.watched && |events| <= maxEvents && |events| + |todo| <= |net.watched| + 1
      invariant forall i | 0 <= i < |events| :: IsLevelOf(net, events[i])
      invariant forall i | 0 <= i < |events| :: events[i].source.Client? ==> events[i].source.fd !in todo
      invariant forall i, j | 0 <= i < j < |events| :: events[i].source != events[j].source
      invariant forall source | IsReady(net, source) :: (source.Client? && source.fd in todo) || Reports(events, source)
      decreases |todo|
    {
      var fd :| fd in todo;
      var c := net.conns[fd];
      ghost var before := events;
      if !c.Idle() || c.space >= net.lowWater {
        events := events + [LevelEvent(Client(fd), c.reset, !c.Idle(), c.space >= net.lowWater)];
        assert events[|before|].source == Client(fd);
      }
      forall source | Reports(before, source)
        ensures Reports(events, source)
      {
        var i :| 0 <= i < |before| && before[i].source == source;
        assert events[i].source == source;
      }
      todo := todo - {fd};
    }
  }

  function AtMost(size: nat, available: nat): nat {
    if available < size then available else size
  }

  /** Some result that a read may have; an eager one takes all that fits. */
  method ReadResult(c: Conn, size: nat, eager: bool) returns (n: int, errno: Errno)
    requires size > 0
    ensures ReadOutcome(c, size, n, errno) && (eager && n > 0 ==> n == AtMost(size, |c.incoming|))
  {
    var failed := *;
    errno := EAGAIN;
    if c.reset && (failed || c.incoming == []) {
      n, errno := -1, ECONNRESET;
    } else if c.incoming != [] {
      var all := AtMost(size, |c.incoming|);
      n :| 1 <= n <= all && (eager ==> n == all);
    } else if c.fin {
      n := 0;
    } else {
      n := -1;
    }
  }

  /** Some result that a write may have. */
  method WriteResult(c: Conn, size: nat) returns (n: int, errno: Errno)
    requires size > 0
    ensures WriteOutcome(c, size, n, errno)
  {
    var broken := *;
    errno := EAGAIN;
    if c.reset {
      n, errno := -1, if broken then EPIPE else ECONNRESET;
    } else if c.space == 0 {
      n := -1;
    } else {
      var all := AtMost(size, c.space);
      n :| 1 <= n <= all;
    }
  }

  /** A call that has failed for good, which EAGAIN is not. */
  datatype Failure = ReadFailed(fd: nat, errno: Errno) | WriteFailed(fd: nat, errno: Errno)

  /** The failed call that a status of -1 or -2 reports: the servers tell by it which one it was. */
  function Blamed(status: int, fd: nat, errno: Errno): seq<Failure> {
    if status == -1 then [ReadFailed(fd, errno)] else if status == -2 then [WriteFailed(fd, errno)] else []
  }

  class Kernel {
    var net: Net
    const plan: seq<PeerStep>  // all that the peers do
    var script: seq<PeerStep>  // what of it they are still going to do
    var errno: Errno
    var failures: seq<Failure>
    const eager: bool          // whether a read returns all that fits, as it may but need not

    constructor (script: seq<PeerStep>, lowWater: nat := 1, eager: bool := false)
      requires lowWater > 0
      ensures NetInv(net) && net == Net(map[], [], {}, {}, [], 0, map[], lowWater)
      ensures this.plan == this.script == script && this.eager == eager && failures == [] && Planned()
    {
      this.net, this.plan, this.script := Net(map[], [], {}, {}, [], 0, map[], lowWater), script, script;
      this.errno, this.failures, this.eager := EAGAIN, [], eager;
      StartAsPlanned(script, lowWater);
    }

    /** Whatever has happened is what the peers planned, as far as they have got. */
    ghost predicate Planned()
      reads this
    {
      AsPlanned(plan, net, script)
    }

    /** The peers perform some beginning of what is left of their script. */
    method PeersAct()
      requires NetInv(net)
      modifies this`net, this`script
      ensures exists k ::
                0 <= k <= |old(script)| && net == ApplyAll(old(net), old(script)[..k]) && script == old(script)[k..]
      ensures NetInv(net) && Evolves(old(net), net, {}) && NoMoreLeft(old(net), old(script), net, script)
      ensures old(script) == [] ==> net == old(net) && script == []
      ensures forall fd | fd in old(net).conns ::
                && fd in net.conns
                && OutlookOf(net.conns[fd], script, fd) == OutlookOf(old(net).conns[fd], old(script), fd)
      ensures old(Planned()) ==> Planned()
    {
      if Planned() {
        forall k | 0 <= k <= |script|
          ensures AsPlanned(plan, ApplyAll(net, script[..k]), script[k..])
        {
          ApplyAllKeepsPlan(plan, net, script, k);
        }
      }
      var k :| 0 <= k <= |script|;
      ghost var net0, script0 := net, script;
      ApplyAllEvolves(net, script[..k]);
      net, script := ApplyAll(net, script[..k]), script[k..];
      ApplyAllLeaves(net0, script0, k, 0);
      forall fd: nat
        ensures fd in net0.conns ==> fd in net.conns && InputLeft(net, script, fd) <= InputLeft(net0, script0, fd)
      {
        ApplyAllLeaves(net0, script0, k, fd);
      }
      forall fd | fd in net0.conns
        ensures fd in net.conns && OutlookOf(net.conns[fd], script, fd) == OutlookOf(net0.conns[fd], script0, fd)
      {
        ApplyAllKeepsOutlook(net0, script0, k, fd);
      }
    }

    /** The same, seen as a whole. */
    method Peers()
      requires NetInv(net)
      modifies this`net, this`script
      ensures NetInv(net) && Evolves(old(net), net, {}) && NoMoreLeft(old(net), old(script), net, script)
      ensures old(script) == [] ==> net == old(net) && script == []
      ensures old(Planned()) ==> Planned()
    {
      PeersAct();
    }

    /** The same, with an eye on connection `fd`. */
    method PeersOf(fd: nat)
      requires NetInv(net) && fd in net.accepted
      modifies this`net, this`script
      ensures NetInv(net) && Evolves(old(net), net, {}) && NoMoreLeft(old(net), old(script), net, script)
      ensures old(script) == [] ==> net == old(net)
      ensures fd in old(net).conns && fd in net.conns && fd in net.accepted
      ensures OutlookOf(net.conns[fd], script, fd) == OutlookOf(old(net).conns[fd], old(script), fd)
      ensures old(Planned()) ==> Planned()
    {
      PeersAct();
    }

    method Read(fd: nat, size: nat) returns (n: int, data: seq<Byte>, ghost mid: Net)
      requires NetInv(net) && fd in net.accepted && size > 0
      modifies this
      ensures Evolves(old(net), mid, {}) && NetInv(mid) && fd in mid.conns
      ensures ReadOutcome(mid.conns[fd], size, n, errno) && net == AfterRead(mid, fd, n)
      ensures data == if n > 0 then mid.conns[fd].incoming[..n] else []
      ensures NetInv(net) && Evolves(old(net), net, {fd}) && NoMoreLeft(old(net), old(script), net, script)
      ensures n > 0 ==> InputLeft(net, script, fd) < InputLeft(old(net), old(script), fd)
      ensures old(script) == [] ==> mid == old(net)
      ensures eager && n > 0 ==> n == AtMost(size, |mid.conns[fd].incoming|)
      ensures fd in old(net).conns && fd in net.conns
      ensures OutlookOf(net.conns[fd], script, fd) == OutlookOf(old(net).conns[fd], old(script), fd)
      ensures old(Planned()) ==> Planned()
      ensures failures == old(failures) + if n < 0 && errno != EAGAIN then [ReadFailed(fd, errno)] else []
    {
      PeersOf(fd);
      mid, data := net, [];
      n, errno := ReadResult(net.conns[fd], size, eager);
      if n > 0 {
        data := net.conns[fd].incoming[..n];
      }
      ReadServes(plan, old(net), old(script), mid, script, fd, n);
      net := AfterRead(net, fd, n);
      if n < 0 && errno != EAGAIN {
        failures := failures + [ReadFailed(fd, errno)];
      }
    }

    method Write(fd: nat, data: seq<Byte>) returns (n: int, ghost mid: Net)
      requires NetInv(net) && fd in net.accepted && data != []
      modifies this
      ensures Evolves(old(net), mid, {}) && NetInv(mid) && fd in mid.conns
      ensures WriteOutcome(mid.conns[fd], |data|, n, errno) && net == AfterWrite(mid, fd, data, n)
      ensures NetInv(net) && Evolves(old(net), net, {fd}) && NoMoreLeft(old(net), old(script), net, script)
      ensures old(script) == [] ==> mid == old(net)
      ensures fd in old(net).conns && fd in net.conns
      ensures OutlookOf(net.conns[fd], script, fd) == OutlookOf(old(net).conns[fd], old(script), fd)
      ensures old(Planned()) ==> Planned()
      ensures failures == old(failures) + if n < 0 && errno != EAGAIN then [WriteFailed(fd, errno)] else []
    {
      n, mid := Send(fd, data);
      if n < 0 && errno != EAGAIN {
        failures := failures + [WriteFailed(fd, errno)];
      }
    }

    /** What a write does at one moment. */
    method Send(fd: nat, data: seq<Byte>) returns (n: int, ghost mid: Net)
      requires NetInv(net) && fd in net.accepted && data != []
      modifies this`net, this`script, this`errno
      ensures Evolves(old(net), mid, {}) && NetInv(mid) && fd in mid.conns
      ensures WriteOutcome(mid.conns[fd], |data|, n, errno) && net == AfterWrite(mid, fd, data, n)
      ensures NetInv(net) && Evolves(old(net), net, {fd}) && NoMoreLeft(old(net), old(script), net, script)
      ensures old(script) == [] ==> mid == old(net)
      ensures fd in old(net).conns && fd in net.conns
      ensures OutlookOf(net.conns[fd], script, fd) == OutlookOf(old(net).conns[fd], old(script), fd)
      ensures old(Planned()) ==> Planned()
    {
      PeersOf(fd);
      mid := net;
      n, errno := WriteResult(net.conns[fd], |data|);
      WriteServes(plan, old(net), old(script), mid, script, fd, data, n);
      net := AfterWrite(net, fd, data, n);
    }

    /** Lets the peers make one step more, if they have any left. */
    method WaitForPeers() returns (acted: bool)
      requires NetInv(net)
      modifies this`net, this`script
      ensures NetInv(net) && Evolves(old(net), net, {}) && NoMoreLeft(old(net), old(script), net, script)
      ensures acted <==> old(script) != []
      ensures if acted then script == old(script)[1..] && net == Apply(old(net), old(script)[0])
              else script == [] && net == old(net)
      ensures old(Planned()) ==> Planned()
    {
      acted := script != [];
      if acted {
        if Planned() {
          ApplyKeepsPlan(plan, net, script);
        }
        ApplyKeepsInv(net, script[0]);
        ApplyEvolves(net, script[0]);
        ghost var net0, script0 := net, script;
        net, script := Apply(net, script[0]), script[1..];
        forall fd: nat
          ensures Work(net, script) <= Work(net0, script0)
          ensures fd in net0.conns && fd in net.conns ==> InputLeft(net, script, fd) <= InputLeft(net0, script0, fd)
        {
          ApplyLeaves(net0, script0, fd);
        }
        ApplyLeaves(net0, script0, 0);
      }
    }

    /** Lets the peers do all that they are still going to do. */
    method FinishPeers()
      requires NetInv(net)
      modifies this`net, this`script
      ensures NetInv(net) && Evolves(old(net), net, {})
      ensures script == [] && net == ApplyAll(old(net), old(script))
      ensures old(Planned()) ==> Planned()
    {
      if Planned() {
        ApplyAllKeepsPlan(plan, net, script, |script|);
        assert script[..|script|] == script && script[|script|..] == [];
      }
      ApplyAllEvolves(net, script);
      net, script := ApplyAll(net, script), [];
    }

    /** One attempt of a blocking write to send what is left. */
    method WriteMore(fd: nat, data: seq<Byte>, begin: nat, ghost net0: Net, ghost script0: seq<PeerStep>)
      returns (n: int, ghost sent: nat)
      requires Writing(net0, script0, net, script, fd, data, begin) && begin < |data|
      modifies this`net, this`script, this`errno
      ensures (n == -1 && sent == 0) || (0 < n == sent <= |data| - begin)
      ensures Writing(net0, script0, net, script, fd, data, begin + sent)
      ensures n < 0 ==> if errno == EAGAIN then net.conns[fd].space == 0 && !net.conns[fd].reset
                        else net.conns[fd].reset
      ensures |script| <= |old(script)|
      ensures old(Planned()) ==> Planned()
    {
      ghost var mid;
      n, mid := Send(fd, data[begin..]);
      sent := if n > 0 then n else 0;
      WritingGoesOn(net0, script0, old(net), old(script), fd, data, begin, mid, net, script, sent);
    }

    /** A blocking write waits for space. */
    method AwaitSpace(fd: nat, ghost data: seq<Byte>, ghost begin: nat, ghost net0: Net, ghost script0: seq<PeerStep>)
      returns (acted: bool)
      requires Writing(net0, script0, net, script, fd, data, begin)
      modifies this`net, this`script
      ensures Writing(net0, script0, net, script, fd, data, begin)
      ensures if acted then |script| < |old(script)| else script == [] && net == old(net)
      ensures old(Planned()) ==> Planned()
    {
      acted := WaitForPeers();
      if acted {
        ApplyKeepsOutlook(old(net), old(script), fd);
        BusyEvolves(old(net), net, fd);
        WritingGoesOn(net0, script0, old(net), old(script), fd, data, begin, net, net, script, 0);
      }
    }

    /** Sends some more, or waits for space; `over` tells that the connection is aborted or the wait is for ever. */
    method WriteOrWait(fd: nat, data: seq<Byte>, begin: nat, ghost net0: Net, ghost script0: seq<PeerStep>)
      returns (next: nat, over: bool, hung: bool)
      requires Writing(net0, script0, net, script, fd, data, begin) && begin < |data|
      modifies this`net, this`script, this`errno
      ensures begin <= next <= |data| && Writing(net0, script0, net, script, fd, data, next)
      ensures if hung then over && next == begin && script == [] && net.conns[fd].space == 0 && !net.conns[fd].reset
              else over ==> next == begin && net.conns[fd].reset && errno != EAGAIN
      ensures |script| <= |old(script)| && (!over && next == begin ==> |script| < |old(script)|)
      ensures old(Planned()) ==> Planned()
    {
      var n;
      ghost var sent;
      n, sent := WriteMore(fd, data, begin, net0, script0);
      if n > 0 {
        return begin + n, false, false;
      }
      if errno != EAGAIN {
        return begin, true, false;
      }
      var acted := AwaitSpace(fd, data, begin, net0, script0);
      return begin, !acted, !acted;
    }

    /**
     write on a blocking socket: it goes on until all bytes are sent or the connection is aborted, and waits for space
     meanwhile. Nothing short of an abort ends it early, so it is hung for good, part of the data sent, exactly when the
     peer never takes enough.
     */
    method WriteBlocking(fd: nat, data: seq<Byte>) returns (n: int, hung: bool, ghost done: nat)
      requires NetInv(net) && fd in net.accepted && data != []
      modifies this
      ensures Writing(old(net), old(script), net, script, fd, data, done)
      ensures hung <==> Starved(old(net).conns[fd], old(script), fd, |data|)
      ensures if hung then n == -1 && done < |data| && script == [] && net.conns[fd].space == 0 && !net.conns[fd].reset
              else n == (if done == 0 then -1 else done) && (done < |data| ==> net.conns[fd].reset && errno != EAGAIN)
      ensures old(Planned()) ==> Planned()
      ensures failures == old(failures) + if n < 0 && !hung then [WriteFailed(fd, errno)] else []
    {
      ghost var net0, script0 := net, script;
      WritingBegins(net, script, fd, data);
      var begin: nat := 0;
      var over := false;
      hung := false;
      while begin < |data| && !over
        invariant begin <= |data| && Writing(net0, script0, net, script, fd, data, begin)
        invariant failures == old(failures)
        invariant old(Planned()) ==> Planned()
        invariant if hung then
                    over && begin < |data| && script == [] && net.conns[fd].space == 0 && !net.conns[fd].reset
                  else
                    over ==> net.conns[fd].reset && errno != EAGAIN
        decreases |script|, |data| - begin, !over
      {
        begin, over, hung := WriteOrWait(fd, data, begin, net0, script0);
      }
      WritingEnds(net0, script0, net, script, fd, data, begin);
      done := begin;
      n := if hung || begin == 0 then -1 else begin;
      // a call that is cut short after it has sent something has not failed
      if n < 0 && !hung {
        failures := failures + [WriteFailed(fd, errno)];
      }
    }

    /** Returns -1 with EAGAIN when no connection is waiting. */
    method Accept() returns (fd: int, ghost mid: Net)
      requires NetInv(net)
      modifies this`net, this`script, this`errno
      ensures NetInv(net) && Evolves(old(net), mid, {}) && NetInv(mid)
      ensures if mid.backlog == [] then fd == -1 && errno == EAGAIN && net == mid
              else fd == mid.backlog[0] && net == AfterAccept(mid)
      ensures Work(net, script) + (if fd < 0 then 0 else 2) <= Work(old(net), old(script))
      ensures old(script) == [] ==> mid == old(net) && script == []
      ensures old(Planned()) ==> Planned()
    {
      Peers();
      mid := net;
      if net.backlog == [] {
        fd, errno := -1, EAGAIN;
      } else {
        AcceptKeepsInv(net);
        fd, net := net.backlog[0], AfterAccept(net);
        SameConns(plan, mid, net, script);
      }
    }

    method EpollAdd(fd: nat) returns (ghost mid: Net)
      requires NetInv(net) && fd in net.accepted && fd !in net.watched
      modifies this`net, this`script
      ensures NetInv(net) && Evolves(old(net), mid, {}) && NetInv(mid)
      ensures fd in mid.conns && net == AfterEpollAdd(mid, fd)
      ensures Work(net, script) <= Work(old(net), old(script)) + 1
      ensures old(script) == [] ==> mid == old(net) && script == []
      ensures old(Planned()) ==> Planned()
    {
      Peers();
      mid := net;
      EpollAddKeepsInv(net, fd);
      net := AfterEpollAdd(net, fd);
      SameConns(plan, mid, net, script);
    }

    /** shutdown and close */
    method Close(fd: nat) returns (ghost mid: Net)
      requires NetInv(net) && fd in net.accepted
      modifies this`net, this`script
      ensures NetInv(net) && Evolves(old(net), mid, {}) && NetInv(mid) && fd in mid.conns && net == AfterClose(mid, fd)
      ensures Work(net, script) <= Work(old(net), old(script))
      ensures old(script) == [] ==> mid == old(net) && script == []
      ensures old(Planned()) && EndsAs(mid.conns[fd], OutlookOf(mid.conns[fd], script, fd)) ==> Planned()
    {
      Peers();
      mid := net;
      if Planned() && EndsAs(mid.conns[fd], OutlookOf(mid.conns[fd], script, fd)) {
        ClosingKeepsPlan(plan, net, script, fd);
      }
      CloseKeepsInv(net, fd);
      net := AfterClose(net, fd);
    }

    /**
     Waits for edges and reports, and forgets, the oldest of them. No events are returned just when the call would never
     return: no edge is pending and the peers have nothing left to do.
     */
    method EpollWait(maxEvents: nat) returns (events: seq<Event>, ghost mid: Net)
      requires NetInv(net) && maxEvents > 0
      modifies this`net, this`script
      ensures NetInv(net) && Evolves(old(net), mid, {}) && NetInv(mid)
      ensures |events| <= maxEvents && |events| <= |mid.ready| && net == mid.(ready := mid.ready[|events|..])
      ensures forall i | 0 <= i < |events| :: events[i].source == mid.ready[i]
      ensures forall i | 0 <= i < |events| ::
                events[i].source.Client? && events[i].source.fd in mid.conns && events[i].hangup ==>
                  mid.conns[events[i].source.fd].reset
      ensures events == [] ==> mid.ready == [] && script == []
      ensures Work(net, script) + |events| <= Work(old(net), old(script))
      ensures old(Planned()) ==> Planned()
    {
      Peers();
      while net.ready == [] && script != []
        invariant NetInv(net) && Evolves(old(net), net, {})
        invariant old(Planned()) ==> Planned()
        invariant Work(net, script) <= Work(old(net), old(script))
        decreases |script|
      {
        ApplyKeepsInv(net, script[0]);
        ApplyEvolves(net, script[0]);
        EvolvesTransitive(old(net), net, Apply(net, script[0]), {});
        ApplyLeaves(net, script, 0);
        if Planned() {
          ApplyKeepsPlan(plan, net, script);
        }
        net, script := Apply(net, script[0]), script[1..];
      }
      mid := net;
      if net.ready == [] {
        return [], mid;
      }
      var n :| 1 <= n <= |net.ready| && n <= maxEvents;
      events := seq(n, i requires 0 <= i < n && n <= |net.ready| reads this => EventOf(net.ready[i]));
      net := net.(ready := net.ready[n..]);
      SameConns(plan, mid, net, script);
    }

    /** Without edges: reports some of the sockets that are ready now, each at most once. */
    method EpollWaitLevel(maxEvents: nat) returns (events: seq<LevelEvent>)
      requires NetInv(net) && maxEvents > 0
      modifies this`net, this`script
      ensures NetInv(net) && Evolves(old(net), net, {})
      ensures IsReport(net, events, maxEvents) && |events| <= |net.watched| + 1
      ensures old(script) == [] ==> net == old(net) && script == []
      ensures old(Planned()) ==> Planned()
    {
      Peers();
      events := LevelEvents(net, maxEvents);
    }

    function EventOf(source: Source): Event
      reads this
    {
      Event(source, source.Client? && source.fd in net.conns && net.conns[source.fd].reset)
    }
  }
}
