/**
 What the three echo servers have in common: the stream that each connection has to be, and, for the two built on epoll,
 what is kept for one client, a buffer of bytes read from its socket but not yet written back.
 */
module EchoStream {
  import opened Network

  // ---------------------------------------------------------------- the echo

  /** All bytes read so far have been written back, in order, but for `unsent`. */
  predicate Echoes(c: Conn, unsent: seq<Byte>) {
    c.received == c.sent + unsent
  }

  /**
   The client cannot be served any further until its peer acts; less than `enough` space does not let the server
   send.
   */
  predicate MustWait(c: Conn, unsent: seq<Byte>, enough: nat := 1) {
    (unsent != [] && c.space < enough && !c.reset) || (unsent == [] && c.Idle())
  }

  /** An aborted connection, an echo so far, or one whose peer finished and got back every byte that arrived. */
  predicate EndedWell(c: Conn) {
    c.sent <= c.received && (c.reset || (c.eof && c.fin && c.sent == c.Arrived()))
  }

  /** How an open connection stands when nothing more will happen: all is echoed, or the peer does not take the rest. */
  predicate AtRest(c: Conn, enough: nat := 1) {
    || (!c.fin && !c.reset && c.sent == c.Arrived())
    || (c.space < enough && !c.reset && c.sent < c.Arrived())
  }

  lemma {:induction false} WaitingIsAtRest(c: Conn, unsent: seq<Byte>, enough: nat := 1)
    requires Echoes(c, unsent) && MustWait(c, unsent, enough)
    ensures AtRest(c, enough)
  {
    if unsent == [] {
      assert c.sent + [] == c.sent && c.received + [] == c.received;
    } else {
      assert c.Arrived() == c.sent + (unsent + c.incoming);
    }
  }

  lemma {:induction false} EndOfInput(c: Conn)
    requires Echoes(c, []) && c.eof && c.fin && c.incoming == []
    ensures EndedWell(c)
  {
    assert c.sent + [] == c.sent && c.received + [] == c.received;
  }

  lemma AbortedEndsWell(c: Conn, unsent: seq<Byte>)
    requires Echoes(c, unsent) && c.reset
    ensures EndedWell(c)
  {
  }

  /** A connection that ended well is what its peer's plan makes of it. */
  lemma {:induction false} EndsAsPlanned(c: Conn, script: seq<PeerStep>, fd: nat)
    requires EndedWell(c)
    ensures EndsAs(c, OutlookOf(c, script, fd))
  {
    if c.reset || Aborts(script, fd) {
      assert c.received + ToRead(c, script, fd) == c.sent + (c.received[|c.sent|..] + ToRead(c, script, fd));
    }
  }

  lemma ReadEchoes(c: Conn, n: nat)
    requires Echoes(c, []) && n <= |c.incoming|
    ensures var data := c.incoming[..n]; Echoes(c.(incoming := c.incoming[n..], received := c.received + data), data)
  {
  }

  lemma WriteEchoes(c: Conn, data: seq<Byte>, n: nat)
    requires Echoes(c, data) && n <= |data| && n <= c.space
    ensures Echoes(c.(space := c.space - n, sent := c.sent + data[..n]), data[n..])
  {
    assert data == data[..n] + data[n..];
  }

  // ---------------------------------------------------------------- a client in memory

  const BUFFER_SIZE := 4096

  datatype ClientState = ClientState(socket: nat, buf: seq<Byte>, bufBegin: nat, bufEnd: nat) {

    predicate Valid() {
      |buf| == BUFFER_SIZE && bufBegin <= bufEnd <= BUFFER_SIZE && (bufBegin == bufEnd ==> bufEnd == 0)
    }

    function Unsent(): seq<Byte>
      requires Valid()
    {
      buf[bufBegin..bufEnd]
    }
  }

  function NewClient(socket: nat, buf: seq<Byte>): (client: ClientState)
    requires |buf| == BUFFER_SIZE
    ensures client.Valid() && client.Unsent() == []
  {
    ClientState(socket, buf, 0, 0)
  }

  /** The buffer after client_read has put `data` into it; nothing was left unsent. */
  function Filled(client: ClientState, data: seq<Byte>): (client': ClientState)
    requires client.Valid() && client.Unsent() == [] && 0 < |data| <= BUFFER_SIZE
    ensures client'.Valid() && client'.socket == client.socket && client'.Unsent() == data
  {
    client.(buf := data + client.buf[|data|..], bufEnd := client.bufEnd + |data|)
  }

  /** The buffer after client_write has sent the first `n` of the unsent bytes. */
  function Advanced(client: ClientState, n: nat): (client': ClientState)
    requires client.Valid() && n <= |client.Unsent()|
    ensures client'.Valid() && client'.socket == client.socket && client'.Unsent() == client.Unsent()[n..]
  {
    var begin := client.bufBegin + n;
    if begin == client.bufEnd then client.(bufBegin := 0, bufEnd := 0) else client.(bufBegin := begin)
  }
}
