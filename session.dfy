/** The socket references an `RtspServer` keeps (`socket`, `handling`, `clientConnected`)
    and how connections, an accepted ANNOUNCE and closes move them. src/rtsp.ts and
    lib/rtsp.js agree except in the test that triggers the full reset on close: the
    former compares the most recently accepted socket, the latter the socket that closed. */
module Session {
  import opened Wrappers

  /** A TCP connection, by identity. */
  type SocketId = nat

  /** None is `null` (for `socket`, `undefined` before the first connection). */
  datatype Refs = Refs(socket: Option<SocketId>, handling: Option<SocketId>, clientConnected: Option<SocketId>)

  const Initial: Refs := Refs(None, None, None)

  /** `connectHandler` ends a new socket exactly when another one is being handled and no
      client has been announced. */
  predicate RejectsConnection(r: Refs) {
    r.handling.Some? && r.clientConnected.None?
  }

  /** `connectHandler`: an accepted socket becomes both `socket` and `handling`, even while
      a client is connected; a rejected one changes nothing. */
  function OnConnect(r: Refs, s: SocketId): (r': Refs)
    ensures RejectsConnection(r) ==> r' == r
    ensures !RejectsConnection(r) ==> r'.socket == Some(s) && r'.handling == Some(s)
    ensures r'.clientConnected == r.clientConnected
  {
    if RejectsConnection(r) then r else r.(socket := Some(s), handling := Some(s))
  }

  /** What closing a socket does: the new references, and whether the full reset
      (`clientConnected` and `outputStream` to null, rtp stopped, clientDisconnected
      notified) runs. */
  datatype CloseEffect = CloseEffect(refs: Refs, reset: bool)

  /** `handling` is cleared only when the closing socket is the one being handled. */
  function ClearHandling(r: Refs, s: SocketId): (h: Option<SocketId>)
    ensures h.None? <==> r.handling.None? || r.handling == Some(s)
    ensures h.Some? ==> h == r.handling
  {
    if r.handling == Some(s) then None else r.handling
  }

  /** `disconnectHandler` of src/rtsp.ts as written: the reset test compares `this.socket`,
      the most recently accepted socket, with `clientConnected`, whichever socket closed. */
  function OnCloseAsWritten(r: Refs, s: SocketId): (e: CloseEffect)
    ensures e.reset <==> r.socket.Some? && r.socket == r.clientConnected
    ensures e.refs.handling == ClearHandling(r, s) && e.refs.socket == r.socket
    ensures e.refs.clientConnected == if e.reset then None else r.clientConnected
  {
    var reset := r.socket.Some? && r.socket == r.clientConnected;
    CloseEffect(Refs(r.socket, ClearHandling(r, s), if reset then None else r.clientConnected), reset)
  }

  /** `disconnectHandler` of lib/rtsp.js, bound to the closing socket: the reset runs
      exactly when the closing socket is the connected client. */
  function OnClose(r: Refs, s: SocketId): (e: CloseEffect)
    ensures e.reset <==> r.clientConnected == Some(s)
    ensures e.refs.handling == ClearHandling(r, s) && e.refs.socket == r.socket
    ensures e.refs.clientConnected == if e.reset then None else r.clientConnected
  {
    var reset := r.clientConnected == Some(s);
    CloseEffect(Refs(r.socket, ClearHandling(r, s), if reset then None else r.clientConnected), reset)
  }

  // ---------------------------------------------------------------- runs of events

  /** What happens to the server's connections: a socket connecting, an ANNOUNCE from a
      socket that gets through to `announceParse` and completes, a socket closing. */
  datatype Event = Connect(s: SocketId) | Announce(s: SocketId) | Close(s: SocketId)

  /** The references, the accepted sockets still open (only those have a close handler),
      and every socket id seen so far (a connection never reuses one). */
  datatype World = World(refs: Refs, open: set<SocketId>, used: set<SocketId>)

  const Start: World := World(Initial, {}, {})

  /** One event, with the close rule of src/rtsp.ts (`asWritten`) or of lib/rtsp.js. An
      ANNOUNCE sets `clientConnected` to its socket only when none is set (otherwise the
      answer is 453). */
  function Step(asWritten: bool, w: World, e: Event): World {
    match e
    case Connect(s) =>
      if s in w.used then w
      else if RejectsConnection(w.refs) then w.(used := w.used + {s})
      else World(OnConnect(w.refs, s), w.open + {s}, w.used + {s})
    case Announce(s) =>
      if s in w.open && w.refs.clientConnected.None? then w.(refs := w.refs.(clientConnected := Some(s))) else w
    case Close(s) =>
      if s !in w.open then w
      else
        var e := if asWritten then OnCloseAsWritten(w.refs, s) else OnClose(w.refs, s);
        World(e.refs, w.open - {s}, w.used)
  }

  function Run(asWritten: bool, w: World, events: seq<Event>): World
    decreases |events|
  {
    if |events| == 0 then w else Run(asWritten, Step(asWritten, w, events[0]), events[1..])
  }

  /** The references point only at sockets that are still open. */
  predicate Sound(w: World) {
    w.open <= w.used
    && (w.refs.socket.Some? ==> w.refs.socket.value in w.used)
    && (w.refs.handling.Some? ==> w.refs.handling.value in w.open)
    && (w.refs.clientConnected.Some? ==> w.refs.clientConnected.value in w.open)
  }

  /** With the close rule of lib/rtsp.js every event keeps the references sound. */
  lemma StepSound(w: World, e: Event)
    requires Sound(w)
    ensures Sound(Step(false, w, e))
  {
    match e
    case Connect(s) =>
    case Announce(s) =>
    case Close(s) =>
      if s in w.open {
        var r := OnClose(w.refs, s).refs;
        assert r.clientConnected.Some? ==> r.clientConnected.value != s;
        assert r.handling.Some? ==> r.handling.value != s;
      }
  }

  /** ... and so does every run from a sound world (`Start` is one): the connected client
      is always an open connection, so its closing always ends the session. */
  lemma {:induction false} RunSound(w: World, events: seq<Event>)
    requires Sound(w)
    ensures Sound(Run(false, w, events))
    decreases |events|
  {
    if |events| > 0 {
      StepSound(w, events[0]);
      RunSound(Step(false, w, events[0]), events[1..]);
    }
  }

  /** The run that shows the difference: client 1 connects and announces, connection 2 is
      accepted (a client is connected), then client 1 goes away. */
  const StaleTrace: seq<Event> := [Connect(1), Announce(1), Connect(2), Close(1)]

  /** With src/rtsp.ts's rule client 1 stays `clientConnected` although it is closed,
      and no clientDisconnected is notified; with lib/rtsp.js's rule the session ends. */
  lemma StaleClient()
    ensures Run(true, Start, StaleTrace).refs.clientConnected == Some(1)
    ensures 1 !in Run(true, Start, StaleTrace).open
    ensures !OnCloseAsWritten(Refs(Some(2), Some(2), Some(1)), 1).reset
    ensures Run(false, Start, StaleTrace).refs.clientConnected == None
  {
    var w1 := Step(true, Start, Connect(1));
    var w2 := Step(true, w1, Announce(1));
    var w3 := Step(true, w2, Connect(2));
    assert w3.refs == Refs(Some(2), Some(2), Some(1));
    assert Run(true, Start, StaleTrace) == Run(true, w3, [Close(1)]);
    assert Run(false, Start, StaleTrace) == Run(false, w3, [Close(1)]);
  }

  /** Once a closed socket is `clientConnected` and is not the latest accepted one, the
      src/rtsp.ts rule never clears it: whatever happens next, every ANNOUNCE is refused
      with 453. */
  lemma {:induction false} StaleForever(w: World, events: seq<Event>, c: SocketId)
    requires w.refs.clientConnected == Some(c) && c in w.used && c !in w.open && w.refs.socket != Some(c)
    ensures Run(true, w, events).refs.clientConnected == Some(c)
    decreases |events|
  {
    if |events| > 0 {
      var w' := Step(true, w, events[0]);
      assert w'.refs.clientConnected == Some(c) && c in w'.used && c !in w'.open && w'.refs.socket != Some(c);
      StaleForever(w', events[1..], c);
    }
  }
}
