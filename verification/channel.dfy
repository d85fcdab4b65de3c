/** The component's single WebSocket: the browser object's `readyState`, the
    `webSocket` state variable that holds it once it has opened, and the
    `open`/`close`/`error` handlers and the unmount cleanup. */
module Channel {

  /** `readyState` of a browser WebSocket (the WHATWG WebSockets Standard):
      CONNECTING, OPEN, CLOSING, CLOSED. */
  datatype ReadyState = Connecting | Open | Closing | Closed

  /** The socket created on mount. `stored` says whether the `webSocket`
      state variable holds it (it is `null` otherwise); only one socket is
      ever created, so that is the whole handle. `closeCalls` counts the calls
      of `ws.close()`. */
  datatype Conn = Conn(socket: ReadyState, stored: bool, closeCalls: nat)

  /** Right after mount: the socket is connecting and no handle is stored. */
  const Created: Conn := Conn(Connecting, false, 0)

  /** The guard of the send: a handle is stored and its socket is OPEN. */
  predicate CanSend(c: Conn) {
    c.stored && c.socket == Open
  }

  /** The browser fires `open` only on a connecting socket. */
  predicate OpenFires(c: Conn) {
    c.socket == Connecting
  }

  /** The device can start the closing handshake only on an open socket. */
  predicate ClosingStarts(c: Conn) {
    c.socket == Open
  }

  /** The browser fires `close` once, on a socket that is not yet closed. */
  predicate CloseFires(c: Conn) {
    c.socket != Closed
  }

  /** `onopen`: the socket is OPEN and the handler stores it (a state write
      that is lost once the component has unmounted). */
  function OnOpen(c: Conn, mounted: bool): (r: Conn)
    requires OpenFires(c)
    ensures r.socket == Open && r.closeCalls == c.closeCalls
    ensures r.stored == (mounted || c.stored)
    ensures mounted ==> CanSend(r)
  {
    Conn(Open, mounted || c.stored, c.closeCalls)
  }

  /** `onclose`: the socket is CLOSED and the handler clears the handle. */
  function OnClose(c: Conn, mounted: bool): (r: Conn)
    requires CloseFires(c)
    ensures r.socket == Closed && r.closeCalls == c.closeCalls
    ensures r.stored == (!mounted && c.stored)
    ensures !CanSend(r)
  {
    Conn(Closed, !mounted && c.stored, c.closeCalls)
  }

  /** The device starts the closing handshake: the socket is CLOSING, and the
      `close` event follows in a later task. No handler runs in between, so
      the handle stays stored although nothing can be sent through it. */
  function OnClosing(c: Conn): (r: Conn)
    requires ClosingStarts(c)
    ensures r.socket == Closing && r.closeCalls == c.closeCalls
    ensures r.stored == c.stored
    ensures !CanSend(r) && CloseFires(r)
  {
    c.(socket := Closing)
  }

  /** `onerror` only logs: neither the handle nor the socket changes. */
  function OnError(c: Conn): (r: Conn)
    ensures r == c
  {
    c
  }

  /** The unmount cleanup calls `ws.close()` (the `if (ws)` test always
      passes): a connecting or open socket starts closing; a closing or
      closed one is left as it is. The stored handle is not touched. */
  function Teardown(c: Conn): (r: Conn)
    ensures r.socket == Closing || r.socket == Closed
    ensures r.socket == Closed <==> c.socket == Closed
    ensures r.stored == c.stored && r.closeCalls == c.closeCalls + 1
    ensures !CanSend(r)
  {
    var next := match c.socket
      case Connecting => Closing
      case Open => Closing
      case Closing => Closing
      case Closed => Closed;
    Conn(next, c.stored, c.closeCalls + 1)
  }

  /** `webSocket.send(msg)` behind its guard: appended to the trace of sent
      messages when the guard holds, dropped silently otherwise. */
  function Send(c: Conn, msg: string, sent: seq<string>): (r: seq<string>)
    ensures CanSend(c) ==> r == sent + [msg]
    ensures !CanSend(c) ==> r == sent
  {
    if CanSend(c) then sent + [msg] else sent
  }
}
