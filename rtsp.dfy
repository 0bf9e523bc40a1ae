/** `RtspServer` of src/rtsp.ts: the per-receiver RTSP state, connection admission, the
    client timeout and the disconnect reset; and the values the method handlers exchange
    with it (requests, responses, notifications to the host). */
module Rtsp {
  import opened Wrappers
  import opened Bytes
  import opened Session
  import Dmap
  import Helper
  import BaseStream
  import Rtp

  /** An RTSP request as httplike hands it over: header names in lower case. */
  datatype Request = Request(requestMethod: string, headers: map<string, string>, content: seq<byte>, socket: SocketId)

  /** `req.headers[name]` used as a condition: present and not the empty string. */
  predicate HasHeader(req: Request, name: string) {
    name in req.headers && req.headers[name] != ""
  }

  /** One `res.send()`: the status and the headers at that moment. */
  datatype Sent = Sent(status: int, headers: map<string, string>)

  /** The response object a handler fills in; `sent` lists every send, in order. */
  datatype Response = Response(statusCode: int, headers: map<string, string>, sent: seq<Sent>)

  function SetHeader(res: Response, name: string, value: string): (r: Response)
    ensures r.headers == res.headers[name := value] && r.statusCode == res.statusCode && r.sent == res.sent
  {
    res.(headers := res.headers[name := value])
  }

  function Send(res: Response): (r: Response)
    ensures r.sent == res.sent + [Sent(res.statusCode, res.headers)]
    ensures r.statusCode == res.statusCode && r.headers == res.headers
  {
    res.(sent := res.sent + [Sent(res.statusCode, res.headers)])
  }

  /** `res.statusCode = code; res.send()`. */
  function SendStatus(res: Response, code: int): (r: Response)
    ensures r.sent == res.sent + [Sent(code, res.headers)]
    ensures r.statusCode == code && r.headers == res.headers
  {
    Send(res.(statusCode := code))
  }

  /** The response every request starts with: its CSeq echoed (when it has one) and the
      `Server` header, status 200, nothing sent. */
  function Answering(req: Request): (res: Response)
    ensures "Server" in res.headers && res.headers["Server"] == "AirTunes/105.1" && res.statusCode == 200 && res.sent == []
    ensures "CSeq" in res.headers <==> "cseq" in req.headers
    ensures "cseq" in req.headers ==> res.headers["CSeq"] == req.headers["cseq"]
    ensures res.headers.Keys <= {"CSeq", "Server"}
  {
    var echoed: map<string, string> := if "cseq" in req.headers then map["CSeq" := req.headers["cseq"]] else map[];
    Response(200, echoed["Server" := "AirTunes/105.1"], [])
  }

  /** The events the server emits on the host's `NodeTunes` emitter. */
  datatype Notification =
    | ClientConnected
    | ClientDisconnected
    | ClientNameChange(name: string)
    | Error(code: int, message: string)
    | MetadataChange(metadata: RtspMetadata)
    | ArtworkChange(artwork: seq<byte>)
    | VolumeChange(volumeText: string)
    | ProgressChange(progress: string)

  /** A field of `metadata`: the DMAP fields replace the whole record; the volume is kept
      as the text `parseFloat` reads. */
  datatype MetaValue =
    | DmapField(value: Dmap.DmapValue)
    | Artwork(bytes: seq<byte>)
    | Volume(text: string)
    | Progress(text: string)
    | ClientName(name: string)

  type RtspMetadata = map<string, MetaValue>

  /** `socket.end()` and `socket.destroy()`. */
  datatype SocketAction = End(s: SocketId) | Destroy(s: SocketId)

  /** The decoder set on the output stream: ALAC (`alac2pcm`) or PCM, with its options. */
  datatype Decoder = Alac(options: Option<Helper.DecoderOptions>) | Pcm(options: Option<Helper.DecoderOptions>)

  /** What ANNOUNCE's SDP attributes set: the AES key (RSA-OAEP decrypted), the IV, the
      codec and the `fmtp` options; None is a field never set (`undefined`). */
  datatype AudioParams = AudioParams(
    audioAesKey: Option<seq<byte>>, audioAesIv: Option<seq<byte>>,
    audioCodec: Option<string>, audioOptions: Option<seq<string>>)

  class RtspServer {
    const macAddress: string
    /** `options.password`; the empty string stands for unset, both being falsy. */
    const password: string
    const controlTimeout: nat
    const rtp: Rtp.RtpServer

    var socket: Option<SocketId>
    var handling: Option<SocketId>
    var clientConnected: Option<SocketId>
    var outputStream: BaseStream.BaseDecoderStream?
    var decoder: Option<Decoder>
    var ports: seq<int>
    var ipv6: bool
    var audioAesKey: Option<seq<byte>>
    var audioAesIv: Option<seq<byte>>
    var audioCodec: Option<string>
    var audioOptions: Option<seq<string>>
    var metadata: RtspMetadata

    ghost var notifications: seq<Notification>
    ghost var socketActions: seq<SocketAction>

    function Refs(): Refs
      reads this
    {
      Session.Refs(socket, handling, clientConnected)
    }

    function Audio(): AudioParams
      reads this
    {
      AudioParams(audioAesKey, audioAesIv, audioCodec, audioOptions)
    }

    /** The connection references, the output stream, the decoder, the IPv6 flag and the
        audio parameters are as they were. */
    twostate predicate SessionKept()
      reads this
    {
      Refs() == old(Refs()) && outputStream == old(outputStream) && decoder == old(decoder)
      && ipv6 == old(ipv6) && Audio() == old(Audio())
    }

    /** The RTP server is in a consistent state and shares the timeout, and an output
        stream exists exactly while a client is connected. */
    ghost predicate Valid()
      reads this, rtp
    {
      rtp.Valid() && rtp.controlTimeout == controlTimeout
      && (outputStream != null <==> clientConnected.Some?)
    }

    constructor(macAddress: string, password: string, controlTimeout: nat)
      ensures Valid() && fresh(rtp) && !rtp.started
      ensures this.macAddress == macAddress && this.password == password && this.controlTimeout == controlTimeout
      ensures Refs() == Initial && outputStream == null && decoder.None?
      ensures ports == [] && !ipv6 && metadata == map[]
      ensures audioAesKey.None? && audioAesIv.None? && audioCodec.None? && audioOptions.None?
      ensures notifications == [] && socketActions == []
    {
      this.macAddress := macAddress;
      this.password := password;
      this.controlTimeout := controlTimeout;
      rtp := new Rtp.RtpServer(controlTimeout);
      socket, handling, clientConnected := None, None, None;
      outputStream := null;
      decoder := None;
      ports := [];
      ipv6 := false;
      audioAesKey, audioAesIv, audioCodec, audioOptions := None, None, None, None;
      metadata := map[];
      notifications := [];
      socketActions := [];
    }

    /** `connectHandler`: end the new socket, changing nothing else, when another is being
        handled and no client is connected; otherwise handle it. */
    method ConnectHandler(s: SocketId) returns (accepted: bool)
      requires Valid()
      modifies this`socket, this`handling, this`socketActions
      ensures Valid()
      ensures accepted <==> !RejectsConnection(old(Refs()))
      ensures Refs() == OnConnect(old(Refs()), s)
      ensures socketActions == old(socketActions) + if accepted then [] else [End(s)]
    {
      if handling.Some? && clientConnected.None? {
        socketActions := socketActions + [End(s)];
        return false;
      }
      socket := Some(s);
      handling := socket;
      return true;
    }

    /** `timeoutHandler`: destroy the connected client's socket, if there is one. */
    method TimeoutHandler()
      modifies this`socketActions
      ensures socketActions == old(socketActions) + if clientConnected.Some? then [Destroy(clientConnected.value)] else []
    {
      if clientConnected.Some? {
        socketActions := socketActions + [Destroy(clientConnected.value)];
      }
    }

    /** `disconnectHandler(socket)` as written: the reset follows `OnCloseAsWritten`. */
    method DisconnectHandler(s: SocketId)
      requires Valid()
      modifies this`handling, this`clientConnected, this`outputStream, this`notifications, rtp
      ensures Valid()
      ensures Refs() == OnCloseAsWritten(old(Refs()), s).refs
      ensures OnCloseAsWritten(old(Refs()), s).reset ==>
        outputStream == null && notifications == old(notifications) + [ClientDisconnected]
        && rtp.Stopped()
      ensures !OnCloseAsWritten(old(Refs()), s).reset ==>
        outputStream == old(outputStream) && notifications == old(notifications) && unchanged(rtp)
    {
      if handling == Some(s) {
        handling := None;
      }
      if socket.Some? && socket == clientConnected {
        clientConnected := None;
        outputStream := null;
        rtp.Stop();
        notifications := notifications + [ClientDisconnected];
      }
    }

    /** `stop`: stop the RTP server. */
    method Stop()
      requires Valid()
      modifies rtp
      ensures Valid() && rtp.Stopped()
    {
      rtp.Stop();
    }
  }
}
