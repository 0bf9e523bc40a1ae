/** The `message` handler `connectHandler` of src/rtsp.ts installs on every accepted
    connection: echo the CSeq, name the server, and hand the request to the handler of its
    method, or answer 400 and end the connection. */
module RtspDispatch {
  import opened Wrappers
  import opened Bytes
  import opened Foreign
  import opened Rtsp
  import opened RtspMethods

  /** The keys of `mapRtspMethods`' table. */
  const MethodNames: set<string> :=
    {"OPTIONS", "ANNOUNCE", "SETUP", "RECORD", "FLUSH", "TEARDOWN", "SET_PARAMETER", "GET_PARAMETER"}

  /** The methods whose handlers read or change the server. */
  const SessionMethods: set<string> := {"ANNOUNCE", "SETUP", "TEARDOWN", "SET_PARAMETER"}

  /** One request on a connection. `localAddress` is the server socket's address as octets
      (for OPTIONS), `freshNonce` the digest a new challenge would carry (for ANNOUNCE).
      Every handler starts from `Answering(req)`. */
  method OnMessage(prims: Primitives, server: RtspServer, nonce: NonceCell, req: Request,
                   localAddress: seq<byte>, freshNonce: string)
    returns (res': Response, outcome: Outcome)
    requires server.Valid()
    modifies server, server.rtp, nonce
    ensures server.Valid()
    ensures req.requestMethod !in MethodNames ==>
      res' == SendStatus(Answering(req), 400) && outcome.Completed?
      && server.socketActions == old(server.socketActions) + [End(req.socket)]
      && server.SessionKept() && server.ports == old(server.ports) && server.metadata == old(server.metadata)
      && server.notifications == old(server.notifications) && unchanged(server.rtp) && unchanged(nonce)
    ensures req.requestMethod in MethodNames ==> server.socketActions == old(server.socketActions)
    ensures req.requestMethod in MethodNames - SessionMethods ==>
      Answered(prims, server, req, localAddress, res', outcome) && unchanged(server) && unchanged(server.rtp)
      && unchanged(nonce)
    ensures req.requestMethod in SessionMethods ==>
      SessionAnswered(prims, server, nonce, req, freshNonce, res', outcome)
  {
    if req.requestMethod in SessionMethods {
      res', outcome := HandleSession(prims, server, nonce, req, freshNonce);
    } else if req.requestMethod in MethodNames {
      res', outcome := Handle(prims, server, req, localAddress);
    } else {
      res' := SendStatus(Answering(req), 400);
      server.socketActions := server.socketActions + [End(req.socket)];
      outcome := Completed;
    }
  }

  /** The answers of the handlers that leave the server alone. */
  predicate Answered(prims: Primitives, server: RtspServer, req: Request, localAddress: seq<byte>,
                     res': Response, outcome: Outcome)
    reads server
  {
    && (req.requestMethod == "OPTIONS" ==>
         outcome.Completed?
         && (!HasHeader(req, "apple-challenge") ==> res' == Send(SetHeader(Answering(req), "public", PublicMethods)))
         && (HasHeader(req, "apple-challenge") ==>
              res' == Send(SetHeader(SetHeader(Answering(req), "public", PublicMethods), "apple-response",
                AppleResponse(prims, server.macAddress, req.headers["apple-challenge"], localAddress)))))
    && (req.requestMethod == "RECORD" ==>
         && (outcome.Threw? <==> RecordAnswerFor(req) == RecordThrows)
         && (RecordAnswerFor(req) == Acknowledged ==> res' == Send(Answering(req)))
         && (RecordAnswerFor(req) == BadRequest ==> res' == Send(SendStatus(Answering(req), 400)))
         && (RecordAnswerFor(req) == WithLatency ==> res' == Send(SetHeader(Answering(req), "audio-latency", "0"))))
    && (req.requestMethod == "FLUSH" ==>
         res' == Send(SetHeader(Answering(req), "rtp-info", "rtptime=1147914212")) && outcome.Completed?)
    && (req.requestMethod == "GET_PARAMETER" ==> res' == Send(Answering(req)) && outcome.Completed?)
  }

  method Handle(prims: Primitives, server: RtspServer, req: Request, localAddress: seq<byte>)
    returns (res': Response, outcome: Outcome)
    ensures Answered(prims, server, req, localAddress, res', outcome)
  {
    var res := Answering(req);
    match req.requestMethod
    case "OPTIONS" =>
      res' := Options(prims, server, req, res, localAddress);
      outcome := Completed;
    case "RECORD" =>
      res', outcome := Record(req, res);
    case "FLUSH" =>
      res' := Flush(res);
      outcome := Completed;
    case _ =>
      res' := GetParameter(res);
      outcome := Completed;
  }

  /** What the handlers that read or change the server do. */
  twostate predicate SessionAnswered(prims: Primitives, server: RtspServer, nonce: NonceCell, req: Request,
                                     freshNonce: string, res': Response, outcome: Outcome)
    reads server, server.outputStream, server.rtp, nonce
  {
    && (req.requestMethod == "ANNOUNCE" ==>
         Announced(prims, server, nonce, req, Answering(req), freshNonce, res', outcome) && unchanged(server.rtp))
    && (req.requestMethod == "SETUP" ==>
         SetupAnswered(server, req, res') && outcome.Completed? && unchanged(nonce))
    && (req.requestMethod == "TEARDOWN" ==>
         TeardownAnswered(server, req, res') && outcome.Completed? && unchanged(nonce))
    && (req.requestMethod == "SET_PARAMETER" ==>
         ParameterAnswered(prims, server, req, res', outcome) && unchanged(server.rtp) && unchanged(nonce))
  }

  /** SETUP: three ports in [5000, 9999], the RTP server started on them in the server's
      family with no interval held, and the transport, session and jack headers sent; the
      session, the metadata and the notifications stay as they were. */
  twostate predicate SetupAnswered(server: RtspServer, req: Request, res': Response)
    reads server, server.rtp
  {
    && |server.ports| == 3 && (forall k :: 0 <= k < 3 ==> 5000 <= server.ports[k] <= 9999)
    && server.rtp.started && server.rtp.socketsOpen && server.rtp.ports == server.ports
    && server.rtp.udp6 == server.ipv6 && server.rtp.timeoutCounter == -1
    && server.SessionKept() && server.metadata == old(server.metadata)
    && server.notifications == old(server.notifications) && server.socketActions == old(server.socketActions)
    && res' == Send(SetHeader(SetHeader(SetHeader(Answering(req),
         "transport", TransportHeader(server.ports[0], server.ports[1], server.ports[2])),
         "session", "1"), "audio-jack-status", "connected"))
  }

  /** TEARDOWN: the RTP server is stopped and a plain answer sent; the server itself,
      including its connected client, stays as it was. */
  twostate predicate TeardownAnswered(server: RtspServer, req: Request, res': Response)
    reads server, server.rtp
  {
    res' == Send(Answering(req)) && unchanged(server) && server.rtp.Stopped()
  }

  /** SET_PARAMETER: the metadata and notifications change as `ParameterSet` says, and
      every other field of the server stays as it was. */
  twostate predicate ParameterAnswered(prims: Primitives, server: RtspServer, req: Request, res': Response,
                                       outcome: Outcome)
    reads server
  {
    && ParameterSet(prims, server, req, Answering(req), res', outcome)
    && server.SessionKept() && server.ports == old(server.ports) && server.socketActions == old(server.socketActions)
  }

  /** The SETUP entry of the method table. */
  method OnSetup(server: RtspServer, req: Request) returns (res': Response)
    requires server.Valid()
    modifies server`ports, server.rtp
    ensures server.Valid() && SetupAnswered(server, req, res')
  {
    res' := Setup(server, Answering(req));
  }

  /** The TEARDOWN entry of the method table. */
  method OnTeardown(server: RtspServer, req: Request) returns (res': Response)
    requires server.Valid()
    modifies server.rtp
    ensures server.Valid() && TeardownAnswered(server, req, res')
  {
    res' := Teardown(server, Answering(req));
  }

  /** The SET_PARAMETER entry of the method table. */
  method OnSetParameter(prims: Primitives, server: RtspServer, req: Request) returns (res': Response, outcome: Outcome)
    requires server.Valid()
    modifies server`metadata, server`notifications
    ensures server.Valid() && ParameterAnswered(prims, server, req, res', outcome)
  {
    res', outcome := SetParameter(prims, server, req, Answering(req));
  }

  /** The session methods are told apart by their names. */
  lemma SessionNamesDiffer()
    ensures "ANNOUNCE" != "SETUP" && "ANNOUNCE" != "TEARDOWN" && "ANNOUNCE" != "SET_PARAMETER"
    ensures "SETUP" != "TEARDOWN" && "SETUP" != "SET_PARAMETER" && "TEARDOWN" != "SET_PARAMETER"
  {
    assert "ANNOUNCE"[0] == 'A' && "SETUP"[0] == 'S' && "TEARDOWN"[0] == 'T' && "SET_PARAMETER"[0] == 'S';
    assert |"SETUP"| != |"SET_PARAMETER"|;
  }

  method HandleSession(prims: Primitives, server: RtspServer, nonce: NonceCell, req: Request, freshNonce: string)
    returns (res': Response, outcome: Outcome)
    requires server.Valid() && req.requestMethod in SessionMethods
    modifies server, server.rtp, nonce
    ensures server.Valid()
    ensures server.socketActions == old(server.socketActions)
    ensures SessionAnswered(prims, server, nonce, req, freshNonce, res', outcome)
  {
    SessionNamesDiffer();
    match req.requestMethod
    case "ANNOUNCE" =>
      res', outcome := Announce(prims, server, nonce, req, Answering(req), freshNonce);
    case "SETUP" =>
      res' := OnSetup(server, req);
      outcome := Completed;
    case "TEARDOWN" =>
      res' := OnTeardown(server, req);
      outcome := Completed;
    case _ =>
      res', outcome := OnSetParameter(prims, server, req);
  }
}
