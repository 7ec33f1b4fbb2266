/**
 The thread-per-client echo server: a loop of blocking reads with a loop of blocking writes inside.

 Each thread serves one connection, so the module follows one thread against the peers. A call that would never return
 is reported as `blocked`. What a thread sends, and whether it ever returns, is settled by what the peer does.
 */
module ThreadingServer {
  import opened Network
  import opened Syscalls
  import opened EchoStream

  /** Only the peer has acted: the stream is as it was. */
  predicate Kept(c: Conn, c': Conn) {
    c'.received == c.received && c'.sent == c.sent && c'.eof == c.eof
  }

  lemma OnlyPeersActed(net: Net, net': Net, fd: nat)
    requires Evolves(net, net', {}) && fd in net.conns
    ensures fd in net'.conns && Kept(net.conns[fd], net'.conns[fd])
  {
    assert ConnEvolves(net.conns[fd], net'.conns[fd], Client(fd) in net'.ready || fd !in net.watched);
  }

  ghost predicate Open(kernel: Kernel, fd: nat)
    reads kernel
  {
    NetInv(kernel.net) && fd in kernel.net.accepted && fd in kernel.net.conns
  }

  function Left(kernel: Kernel, fd: nat): nat
    reads kernel
  {
    InputLeft(kernel.net, kernel.script, fd)
  }

  /** What the peer is going to make of connection `fd`, and has made of it; nothing the server does changes it. */
  function Ahead(kernel: Kernel, fd: nat): Outlook
    reads kernel
    requires fd in kernel.net.conns
  {
    OutlookOf(kernel.net.conns[fd], kernel.script, fd)
  }

  /** An attempt to read that does not wait; `again` says that it would have had to. */
  method TryRead(kernel: Kernel, fd: nat, size: nat) returns (n: int, data: seq<Byte>, again: bool)
    requires Open(kernel, fd) && size > 0
    modifies kernel
    ensures Open(kernel, fd)
    ensures var c0, c := old(kernel.net.conns[fd]), kernel.net.conns[fd];
            if again then Kept(c0, c) && c.Idle() else ReadDone(c0, c, n, data) && n <= size
    ensures Ahead(kernel, fd) == old(Ahead(kernel, fd))
    ensures Left(kernel, fd) <= old(Left(kernel, fd)) && (!again && n > 0 ==> Left(kernel, fd) < old(Left(kernel, fd)))
    ensures |kernel.script| <= |old(kernel.script)|
    ensures kernel.failures == old(kernel.failures) + if n < 0 && !again then [ReadFailed(fd, kernel.errno)] else []
  {
    ghost var mid;
    n, data, mid := kernel.Read(fd, size);
    OnlyPeersActed(old(kernel.net), mid, fd);
    again := n < 0 && kernel.errno == EAGAIN;
  }

  method Wait(kernel: Kernel, fd: nat) returns (acted: bool)
    requires Open(kernel, fd)
    modifies kernel`net, kernel`script
    ensures Open(kernel, fd) && Kept(old(kernel.net.conns[fd]), kernel.net.conns[fd])
    ensures Ahead(kernel, fd) == old(Ahead(kernel, fd))
    ensures Left(kernel, fd) <= old(Left(kernel, fd))
    ensures if acted then |kernel.script| < |old(kernel.script)|
            else kernel.script == [] && kernel.net == old(kernel.net)
  {
    if kernel.script != [] {
      ApplyKeepsOutlook(kernel.net, kernel.script, fd);
    }
    acted := kernel.WaitForPeers();
    OnlyPeersActed(old(kernel.net), kernel.net, fd);
  }

  predicate ReadDone(c0: Conn, c: Conn, n: int, data: seq<Byte>) {
    && c.sent == c0.sent && c.received == c0.received + data && c.eof == (c0.eof || n == 0)
    && |data| == (if n > 0 then n else 0)
    && (n == 0 ==> c.fin && c.incoming == [])
    && (n < 0 ==> c.reset)
  }

  /** read, on a blocking socket */
  method ReadBlocking(kernel: Kernel, fd: nat, size: nat) returns (n: int, data: seq<Byte>, blocked: bool)
    requires Open(kernel, fd) && size > 0
    modifies kernel
    ensures Open(kernel, fd)
    ensures var c0, c := old(kernel.net.conns[fd]), kernel.net.conns[fd];
            if blocked then Kept(c0, c) && kernel.script == [] && c.Idle() && n == 0 && data == []
            else ReadDone(c0, c, n, data) && n <= size
    ensures Ahead(kernel, fd) == old(Ahead(kernel, fd))
    ensures Left(kernel, fd) <= old(Left(kernel, fd)) && (n > 0 ==> Left(kernel, fd) < old(Left(kernel, fd)))
    ensures kernel.failures == old(kernel.failures) + if n < 0 then [ReadFailed(fd, kernel.errno)] else []
  {
    while true
      invariant kernel.failures == old(kernel.failures)
      invariant Open(kernel, fd) && Kept(old(kernel.net.conns[fd]), kernel.net.conns[fd])
      invariant Ahead(kernel, fd) == old(Ahead(kernel, fd))
      invariant Left(kernel, fd) <= old(Left(kernel, fd))
      decreases |kernel.script|
    {
      var again;
      n, data, again := TryRead(kernel, fd, size);
      if !again {
        return n, data, false;
      }
      var acted := Wait(kernel, fd);
      if !acted {
        return 0, [], true;
      }
    }
  }

  /** The connection of a write that never returns. */
  predicate Stuck(c: Conn) {
    !c.reset && !c.eof && c.space == 0 && c.sent < c.received
  }

  const BUFFER_LENGTH := 4096

  /** The bytes of the buffer from `begin` on that the inner loop still has to write. */
  function Rest(buffer: array<Byte>, begin: nat, count: int): seq<Byte>
    requires 0 <= count && begin + count <= buffer.Length
    reads buffer
  {
    buffer[begin..begin + count]
  }

  /** The write inside handle_client: it sends all of `data` unless the connection is aborted or it never returns. */
  method WriteSome(kernel: Kernel, fd: nat, data: seq<Byte>) returns (n: int, blocked: bool)
    requires Open(kernel, fd) && data != [] && Echoes(kernel.net.conns[fd], data) && !kernel.net.conns[fd].eof
    modifies kernel
    ensures Open(kernel, fd) && !kernel.net.conns[fd].eof && Ahead(kernel, fd) == old(Ahead(kernel, fd))
    ensures blocked <==> Starved(old(kernel.net).conns[fd], old(kernel.script), fd, |data|)
    ensures kernel.failures
            == old(kernel.failures) + if n < 0 && !blocked then [WriteFailed(fd, kernel.errno)] else []
    ensures var c := kernel.net.conns[fd];
            if blocked then kernel.script == [] && Stuck(c)
            else if n < 0 then c.reset && c.sent <= c.received
            else 0 < n <= |data| && Echoes(c, data[n..]) && (n < |data| ==> c.reset)
    ensures Left(kernel, fd) <= old(Left(kernel, fd))
  {
    ghost var done;
    n, blocked, done := kernel.WriteBlocking(fd, data);
    assert data == data[..done] + data[done..];
  }

  /** Writes out `count` bytes of the buffer: the loop inside handle_client. The result is 0, or -2 for an error. */
  method WriteAll(kernel: Kernel, fd: nat, buffer: array<Byte>, count: int) returns (status: int, blocked: bool)
    requires Open(kernel, fd) && 0 <= count <= buffer.Length && !kernel.net.conns[fd].eof
    requires Echoes(kernel.net.conns[fd], Rest(buffer, 0, count))
    modifies kernel
    ensures Open(kernel, fd) && !kernel.net.conns[fd].eof && Ahead(kernel, fd) == old(Ahead(kernel, fd))
    ensures blocked <==> Starved(old(kernel.net).conns[fd], old(kernel.script), fd, count)
    ensures kernel.failures == old(kernel.failures) + Blamed(status, fd, kernel.errno)
    ensures var c := kernel.net.conns[fd];
            if blocked then status == 0 && kernel.script == [] && Stuck(c)
            else if status == 0 then Echoes(c, [])
            else status == -2 && c.reset && c.sent <= c.received
    ensures Left(kernel, fd) <= old(Left(kernel, fd))
  {
    var rbytes, writeData := count, 0;
    while rbytes > 0
      invariant 0 <= rbytes && 0 <= writeData && writeData + rbytes <= buffer.Length
      invariant Open(kernel, fd) && !kernel.net.conns[fd].eof && Ahead(kernel, fd) == old(Ahead(kernel, fd))
      invariant Echoes(kernel.net.conns[fd], Rest(buffer, writeData, rbytes))
      invariant kernel.failures == old(kernel.failures)
      invariant if rbytes == count then kernel.net == old(kernel.net) && kernel.script == old(kernel.script)
                else
                  && !Starved(old(kernel.net).conns[fd], old(kernel.script), fd, count)
                  && (rbytes > 0 ==> kernel.net.conns[fd].reset)
      invariant Left(kernel, fd) <= old(Left(kernel, fd))
      decreases rbytes
    {
      ghost var rest := Rest(buffer, writeData, rbytes);
      var wbytes;
      wbytes, blocked := WriteSome(kernel, fd, buffer[writeData..writeData + rbytes]);
      if blocked {
        return 0, true;
      }
      if wbytes < 0 {
        return -2, false;
      }
      rbytes := rbytes - wbytes;
      writeData := writeData + wbytes;
      assert Rest(buffer, writeData, rbytes) == rest[wbytes..];
    }
    return 0, false;
  }

  /** The read at the top of the loop: what has been read is in the buffer, still to be written. */
  method ReadInto(kernel: Kernel, fd: nat, buffer: array<Byte>) returns (rbytes: int, blocked: bool)
    requires Open(kernel, fd) && 0 < buffer.Length
    requires Echoes(kernel.net.conns[fd], []) && !kernel.net.conns[fd].eof
    modifies kernel, buffer
    ensures Open(kernel, fd) && rbytes <= buffer.Length
    ensures var c := kernel.net.conns[fd];
            && Echoes(c, if rbytes > 0 then Rest(buffer, 0, rbytes) else [])
            && (blocked ==> kernel.script == [] && c.Idle() && rbytes == 0)
            && c.eof == (!blocked && rbytes == 0)
            && (c.eof ==> c.fin && c.incoming == [])
            && (rbytes < 0 ==> c.reset)
    ensures Ahead(kernel, fd) == old(Ahead(kernel, fd))
    ensures kernel.failures == old(kernel.failures) + if rbytes < 0 then [ReadFailed(fd, kernel.errno)] else []
    ensures Left(kernel, fd) <= old(Left(kernel, fd)) && (rbytes > 0 ==> Left(kernel, fd) < old(Left(kernel, fd)))
  {
    var data;
    rbytes, data, blocked := ReadBlocking(kernel, fd, buffer.Length);
    forall k | 0 <= k < |data| {
      buffer[k] := data[k];
    }
    assert rbytes > 0 ==> Rest(buffer, 0, rbytes) == data;
  }

  /**
   The outcome of handle_client for a connection that is never aborted: as much of the input as the peer takes comes
   back, and the call returns, with 0, exactly when that is all of it and the peer finishes.
   */
  predicate Echoed(outlook: Outlook, sent: seq<Byte>, status: int, blocked: bool) {
    && sent <= outlook.input
    && (outlook.Lasting? ==>
          && sent == outlook.input[..AtMost(|outlook.input|, outlook.capacity)]
          && (blocked <==> !outlook.finishes || outlook.capacity < |outlook.input|)
          && (!blocked ==> status == 0))
  }

  lemma EndIsEchoed(c: Conn, script: seq<PeerStep>, fd: nat)
    requires c.fin && c.incoming == [] && Echoes(c, [])
    ensures Echoed(OutlookOf(c, script, fd), c.sent, 0, false)
  {
    assert c.sent + [] == c.sent && c.received + [] == c.received;
  }

  lemma AbortIsEchoed(c: Conn, script: seq<PeerStep>, fd: nat, status: int)
    requires c.reset && c.sent <= c.received
    ensures Echoed(OutlookOf(c, script, fd), c.sent, status, false)
  {
  }

  lemma IdleIsEchoed(c: Conn, fd: nat)
    requires c.Idle() && Echoes(c, [])
    ensures Echoed(OutlookOf(c, [], fd), c.sent, 0, true)
  {
    assert c.sent + [] == c.sent && c.received + ([] + []) == c.received;
  }

  lemma StuckIsEchoed(c: Conn, fd: nat)
    requires Stuck(c)
    ensures Echoed(OutlookOf(c, [], fd), c.sent, 0, true) && AtRest(c)
  {
    assert c.incoming + [] == c.incoming;
  }

  /**
   handle_client, on a connection of which nothing has been read or written yet. What the peer makes of the connection
   settles the outcome, however its steps interleave with the calls. If the connection is aborted the call returns,
   with 0 only when all bytes were echoed before. All along the output is a beginning of the input.
   */
  method HandleClient(kernel: Kernel, clientSocket: nat) returns (status: int, blocked: bool)
    requires Open(kernel, clientSocket) && Untouched(kernel.net.conns[clientSocket])
    modifies kernel
    ensures Open(kernel, clientSocket)
    ensures var c := kernel.net.conns[clientSocket];
            && c.sent <= c.received
            && (blocked ==> kernel.script == [] && AtRest(c))
            && (!blocked && status == 0 ==> c.eof && c.fin && c.sent == c.Arrived())
            && (!blocked && status != 0 ==> c.reset)
            && (status == -3 ==> c.eof)
            && Echoed(old(Ahead(kernel, clientSocket)), c.sent, status, blocked)
    ensures blocked ==> status == 0 && old(Ahead(kernel, clientSocket)).Lasting?
    ensures status in {0, -1, -2, -3}
    ensures kernel.failures == old(kernel.failures) + Blamed(status, clientSocket, kernel.errno)
  {
    var buffer := new Byte[BUFFER_LENGTH](_ => 0);
    var rbytes := 1;
    while rbytes > 0
      invariant Open(kernel, clientSocket) && Echoes(kernel.net.conns[clientSocket], [])
      invariant Ahead(kernel, clientSocket) == old(Ahead(kernel, clientSocket))
      invariant var c := kernel.net.conns[clientSocket];
                && c.eof == (rbytes == 0)
                && (rbytes == 0 ==> c.fin && c.incoming == [])
                && (rbytes < 0 ==> c.reset)
      invariant kernel.failures
                == old(kernel.failures) + if rbytes < 0 then [ReadFailed(clientSocket, kernel.errno)] else []
      decreases Left(kernel, clientSocket), rbytes > 0
    {
      rbytes, blocked := ReadInto(kernel, clientSocket, buffer);
      if blocked {
        WaitingIsAtRest(kernel.net.conns[clientSocket], []);
        IdleIsEchoed(kernel.net.conns[clientSocket], clientSocket);
        return 0, true;
      }
      if rbytes > 0 {
        status, blocked := WriteAll(kernel, clientSocket, buffer, rbytes);
        if blocked {
          StuckIsEchoed(kernel.net.conns[clientSocket], clientSocket);
          return;
        }
        if status < 0 {
          AbortIsEchoed(kernel.net.conns[clientSocket], kernel.script, clientSocket, status);
          return;
        }
      }
    }
    if rbytes < 0 {
      AbortIsEchoed(kernel.net.conns[clientSocket], kernel.script, clientSocket, -1);
      return -1, false;
    }
    EndOfInput(kernel.net.conns[clientSocket]);
    EndIsEchoed(kernel.net.conns[clientSocket], kernel.script, clientSocket);
    if kernel.net.conns[clientSocket].reset {
      // shutdown fails
      AbortIsEchoed(kernel.net.conns[clientSocket], kernel.script, clientSocket, -3);
      return -3, false;
    }
    return 0, false;
  }
}
