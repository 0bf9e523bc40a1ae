/** The legacy `RtspServer` of lib/rtsp.js. Its `disconnectHandler` is bound to the socket
    that closed, so the reset follows `Session.OnClose`. Its method table comes from
    lib/rtspmethods.js, which is not part of this model: the dispatcher is modelled up to
    the choice between a mapped handler and the 400 answer. */
module LegacyRtsp {
  import opened Wrappers
  import opened Session
  import Rtsp
  import BaseStream
  import Rtp

  class RtspServer {
    const macAddress: string
    const controlTimeout: nat
    const rtp: Rtp.RtpServer
    /** The names `require('./rtspmethods')(this)` maps to handlers. */
    const methodNames: set<string>

    var socket: Option<SocketId>
    var handling: Option<SocketId>
    var clientConnected: Option<SocketId>
    var outputStream: BaseStream.BaseDecoderStream?
    var ports: seq<int>
    var metadata: Rtsp.RtspMetadata

    ghost var notifications: seq<Rtsp.Notification>
    ghost var socketActions: seq<Rtsp.SocketAction>

    function Refs(): Refs
      reads this
    {
      Session.Refs(socket, handling, clientConnected)
    }

    ghost predicate Valid()
      reads this, rtp
    {
      rtp.Valid() && rtp.controlTimeout == controlTimeout
    }

    constructor(macAddress: string, controlTimeout: nat, methodNames: set<string>)
      ensures Valid() && fresh(rtp) && !rtp.started
      ensures this.macAddress == macAddress && this.controlTimeout == controlTimeout && this.methodNames == methodNames
      ensures Refs() == Initial && outputStream == null && ports == [] && metadata == map[]
      ensures notifications == [] && socketActions == []
    {
      this.macAddress := macAddress;
      this.controlTimeout := controlTimeout;
      this.methodNames := methodNames;
      rtp := new Rtp.RtpServer(controlTimeout);
      socket, handling, clientConnected := None, None, None;
      outputStream := null;
      ports := [];
      metadata := map[];
      notifications := [];
      socketActions := [];
    }

    /** `connectHandler`: as in src/rtsp.ts. */
    method ConnectHandler(s: SocketId) returns (accepted: bool)
      requires Valid()
      modifies this`socket, this`handling, this`socketActions
      ensures Valid()
      ensures accepted <==> !RejectsConnection(old(Refs()))
      ensures Refs() == OnConnect(old(Refs()), s)
      ensures socketActions == old(socketActions) + if accepted then [] else [Rtsp.End(s)]
    {
      if handling.Some? && clientConnected.None? {
        socketActions := socketActions + [Rtsp.End(s)];
        return false;
      }
      socket := Some(s);
      handling := socket;
      return true;
    }

    /** The parser's `message` callback: CSeq and Server on every response; a mapped method
        goes to its handler (true), any other is answered 400 and its socket ended. */
    method OnMessage(req: Rtsp.Request) returns (res: Rtsp.Response, dispatched: bool)
      modifies this`socketActions
      ensures dispatched <==> req.requestMethod in methodNames
      ensures dispatched ==> res == Rtsp.Answering(req) && socketActions == old(socketActions)
      ensures !dispatched ==>
        res == Rtsp.SendStatus(Rtsp.Answering(req), 400) && socketActions == old(socketActions) + [Rtsp.End(req.socket)]
    {
      res := Rtsp.Answering(req);
      if req.requestMethod in methodNames {
        return res, true;
      }
      res := Rtsp.SendStatus(res, 400);
      socketActions := socketActions + [Rtsp.End(req.socket)];
      return res, false;
    }

    /** `timeoutHandler`: destroy the connected client's socket, if there is one. */
    method TimeoutHandler()
      modifies this`socketActions
      ensures socketActions == old(socketActions) + if clientConnected.Some? then [Rtsp.Destroy(clientConnected.value)] else []
    {
      if clientConnected.Some? {
        socketActions := socketActions + [Rtsp.Destroy(clientConnected.value)];
      }
    }

    /** `disconnectHandler`, bound to `{ self, socket }`: `handling` is cleared iff the
        closing socket is `handling`, and the reset runs iff it is `clientConnected`. */
    method DisconnectHandler(s: SocketId)
      requires Valid()
      modifies this`handling, this`clientConnected, this`outputStream, this`notifications, rtp
      ensures Valid()
      ensures Refs() == OnClose(old(Refs()), s).refs
      ensures old(clientConnected) == Some(s) ==>
        clientConnected.None? && outputStream == null && notifications == old(notifications) + [Rtsp.ClientDisconnected]
        && rtp.Stopped()
      ensures old(clientConnected) != Some(s) ==>
        outputStream == old(outputStream) && notifications == old(notifications) && unchanged(rtp)
    {
      if handling == Some(s) {
        handling := None;
      }
      if clientConnected == Some(s) {
        clientConnected := None;
        outputStream := null;
        rtp.Stop();
        notifications := notifications + [Rtsp.ClientDisconnected];
      }
    }

    /** `stop`: stop the RTP server. */
    method Stop()
      requires Valid()
      modifies rtp
      ensures Valid() && rtp.Stopped()
    {
      rtp.Stop();
    }
  }
}
