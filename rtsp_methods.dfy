/** The RTSP method handlers of src/rtspmethods.ts. Each takes the server it is bound to,
    the request and the response being built, and gives back the response and whether it
    completed or threw. Randomness (the nonce's bytes, the port picks) and the address of
    the server's socket are parameters or nondeterministic choices. */
module RtspMethods {
  import opened Wrappers
  import opened Bytes
  import opened Strings
  import opened Foreign
  import opened Session
  import opened Rtsp
  import Sdp
  import Helper
  import Dmap
  import BaseStream
  import Rtp

  /** The module-level `let nonce`, shared by every request. */
  class NonceCell {
    var value: string

    constructor()
      ensures value == ""
    {
      value := "";
    }
  }

  // ================================================================ OPTIONS

  const PublicMethods: string :=
    "ANNOUNCE, SETUP, RECORD, PAUSE, FLUSH, TEARDOWN, OPTIONS, GET_PARAMETER, SET_PARAMETER, POST, GET"

  /** The `apple-response` to a challenge: base64 of the RSA signature of the decoded
      challenge, the local address and the MAC address's octets, zero-padded to 32 octets. */
  function AppleResponse(prims: Primitives, macAddress: string, challenge: string, localAddress: seq<byte>): string {
    prims.base64Encode(prims.rsaPrivateEncrypt(Helper.ZeroPadded(
      prims.base64Decode(challenge) + localAddress + prims.hexDecode(Remove(macAddress, ':')), 32)))
  }

  /** `options`: advertise the methods and, when the request carries an Apple challenge,
      answer it. `localAddress` is the address of the server's current socket as octets
      (IPv4 when it is an IPv4-mapped IPv6 address). */
  method Options(prims: Primitives, server: RtspServer, req: Request, res: Response, localAddress: seq<byte>)
    returns (res': Response)
    ensures !HasHeader(req, "apple-challenge") ==> res' == Send(SetHeader(res, "public", PublicMethods))
    ensures HasHeader(req, "apple-challenge") ==>
      res' == Send(SetHeader(SetHeader(res, "public", PublicMethods), "apple-response",
        AppleResponse(prims, server.macAddress, req.headers["apple-challenge"], localAddress)))
  {
    res' := SetHeader(res, "public", PublicMethods);
    if HasHeader(req, "apple-challenge") {
      var challengeBuf := prims.base64Decode(req.headers["apple-challenge"]);
      var macAddr := prims.hexDecode(Remove(server.macAddress, ':'));
      var response := Helper.GenerateAppleResponse(prims, challengeBuf, localAddress, macAddr);
      res' := SetHeader(res', "apple-response", response);
    }
    res' := Send(res');
  }

  // ================================================================ DECODER_STREAMS

  /** `new DECODER_STREAMS[audioCodec](decoderOptions)`: None where the codec is not a key
      of the table and the constructor call throws. */
  function DecoderStream(codec: Option<string>, options: Option<Helper.DecoderOptions>): (d: Option<Decoder>)
    ensures d.Some? <==> codec == Some("96 AppleLossless") || codec == Some("96 L16/44100/2")
    ensures codec == Some("96 AppleLossless") ==> d == Some(Alac(options))
    ensures codec == Some("96 L16/44100/2") ==> d == Some(Pcm(options))
  {
    if codec == Some("96 AppleLossless") then Some(Alac(options))
    else if codec == Some("96 L16/44100/2") then Some(Pcm(options))
    else None
  }

  /** The test `announceParse` applies to an `rtpmap` value before answering 415. */
  predicate CodecSupported(codec: string) {
    Contains(codec, "L16") || Contains(codec, "AppleLossless")
  }

  lemma OccurrenceFound(s: string, t: string, k: nat)
    requires OccursAt(s, t, k)
    ensures Contains(s, t)
  {
  }

  /** A codec with a decoder passes the 415 test. */
  lemma DecodableIsSupported(codec: string, options: Option<Helper.DecoderOptions>)
    requires DecoderStream(Some(codec), options).Some?
    ensures CodecSupported(codec)
  {
    if codec == "96 AppleLossless" {
      assert codec[3..3 + |"AppleLossless"|] == "AppleLossless";
      OccurrenceFound(codec, "AppleLossless", 3);
    } else {
      assert codec[3..6] == "L16";
      OccurrenceFound(codec, "L16", 3);
    }
  }

  /** ... but not conversely: PCM at 48 kHz is not answered 415, yet no decoder is found
      for it, so the ANNOUNCE throws. */
  lemma SupportedWithoutDecoder(options: Option<Helper.DecoderOptions>)
    ensures CodecSupported("96 L16/48000/2")
    ensures DecoderStream(Some("96 L16/48000/2"), options).None?
  {
    var codec := "96 L16/48000/2";
    assert codec[3..6] == "L16";
    OccurrenceFound(codec, "L16", 3);
  }

  // ================================================================ SDP attributes

  /** `a.substring(0, i)` and `a.substring(i + 1)` for `i = a.indexOf(':')`. Without a colon
      `substring(0, -1)` is empty and `substring(0)` the whole value. */
  function SplitAttribute(a: string): (kv: (string, string))
    ensures Contains(a, ":") ==> kv.0 + ":" + kv.1 == a && !Contains(kv.0, ":")
    ensures !Contains(a, ":") ==> kv == ("", a)
  {
    var k := IndexOf(a, ":");
    if k == -1 then ("", a)
    else
      PrefixBeforeFirstFree(a, ":", k);
      assert a == a[..k] + a[k..k + 1] + a[k + 1..];
      (a[..k], a[k + 1..])
  }

  /** What the `a` lines have set so far, the response, and the notifications emitted. */
  datatype Parsed = Parsed(audio: AudioParams, res: Response, notes: seq<Notification>)

  function UnsupportedCodec(codec: string): Notification {
    Error(415, "Codec not supported (" + codec + ")")
  }

  /** One iteration of `announceParse`'s loop; None where it throws (an `a` line without a
      value is `undefined`, and RSA-OAEP decryption can fail). */
  function ApplyAttribute(prims: Primitives, p: Parsed, a: Option<string>): Option<Parsed> {
    match a
    case None => None
    case Some(text) =>
      var (key, value) := SplitAttribute(text);
      if key == "rsaaeskey" then
        match prims.rsaOaepDecrypt(prims.base64Decode(value))
        case None => None
        case Some(k) => Some(p.(audio := p.audio.(audioAesKey := Some(k))))
      else if key == "aesiv" then
        Some(p.(audio := p.audio.(audioAesIv := Some(prims.base64Decode(value)))))
      else if key == "rtpmap" then
        var q := p.(audio := p.audio.(audioCodec := Some(value)));
        if CodecSupported(value) then Some(q)
        else Some(q.(res := SendStatus(q.res, 415), notes := q.notes + [UnsupportedCodec(value)]))
      else if key == "fmtp" then
        Some(p.(audio := p.audio.(audioOptions := Some(Split(value, " ")))))
      else Some(p)
  }

  /** The loop over the `a` values: the state after them, and whether it got through all. */
  function ApplyAll(prims: Primitives, p: Parsed, attrs: seq<Option<string>>): (Parsed, bool)
    decreases |attrs|
  {
    if |attrs| == 0 then (p, true)
    else
      var (q, ok) := ApplyAll(prims, p, attrs[..|attrs| - 1]);
      if !ok then (q, false)
      else match ApplyAttribute(prims, q, attrs[|attrs| - 1])
        case None => (q, false)
        case Some(q') => (q', true)
  }

  /** An `a` value the loop gets through. */
  predicate Accepted(prims: Primitives, a: Option<string>) {
    a.Some? && (SplitAttribute(a.value).0 == "rsaaeskey" ==>
      prims.rsaOaepDecrypt(prims.base64Decode(SplitAttribute(a.value).1)).Some?)
  }

  /** The value of the last `a` line with the given key, if there is one. */
  function LastValue(attrs: seq<Option<string>>, key: string): Option<string>
    decreases |attrs|
  {
    if |attrs| == 0 then None
    else
      var a := attrs[|attrs| - 1];
      if a.Some? && SplitAttribute(a.value).0 == key then Some(SplitAttribute(a.value).1)
      else LastValue(attrs[..|attrs| - 1], key)
  }

  /** The number of `rtpmap` lines whose codec fails the 415 test. */
  function Unsupported(attrs: seq<Option<string>>): nat
    decreases |attrs|
  {
    if |attrs| == 0 then 0
    else
      var a := attrs[|attrs| - 1];
      Unsupported(attrs[..|attrs| - 1])
      + if a.Some? && SplitAttribute(a.value).0 == "rtpmap" && !CodecSupported(SplitAttribute(a.value).1) then 1 else 0
  }

  /** One line's effect: it goes through exactly when accepted, and then sets the codec
      or the options when its key says so and answers 415 for an unsupported codec. */
  lemma AttributeEffect(prims: Primitives, q: Parsed, a: Option<string>)
    ensures ApplyAttribute(prims, q, a).Some? <==> Accepted(prims, a)
    ensures ApplyAttribute(prims, q, a).Some? ==>
      var q' := ApplyAttribute(prims, q, a).value;
      var key, value := SplitAttribute(a.value).0, SplitAttribute(a.value).1;
      && q'.audio.audioCodec == (if key == "rtpmap" then Some(value) else q.audio.audioCodec)
      && q'.audio.audioOptions == (if key == "fmtp" then Some(Split(value, " ")) else q.audio.audioOptions)
      && var refused := if key == "rtpmap" && !CodecSupported(value) then 1 else 0;
      |q'.res.sent| == |q.res.sent| + refused && |q'.notes| == |q.notes| + refused
  {
  }

  /** The loop over all lines, from the loop over all but the last. */
  lemma ApplyAllSnoc(prims: Primitives, p: Parsed, attrs: seq<Option<string>>)
    requires |attrs| > 0
    ensures var r := ApplyAll(prims, p, attrs[..|attrs| - 1]);
      var step := ApplyAttribute(prims, r.0, attrs[|attrs| - 1]);
      ApplyAll(prims, p, attrs) == if !r.1 then r else if step.Some? then (step.value, true) else (r.0, false)
  {
  }

  /** The loop gets through every line exactly when each is accepted. */
  lemma {:induction false} ApplyAllCompletes(prims: Primitives, p: Parsed, attrs: seq<Option<string>>)
    ensures ApplyAll(prims, p, attrs).1 <==> forall i :: 0 <= i < |attrs| ==> Accepted(prims, attrs[i])
    decreases |attrs|
  {
    if |attrs| > 0 {
      var init := attrs[..|attrs| - 1];
      ApplyAllCompletes(prims, p, init);
      ApplyAllSnoc(prims, p, attrs);
      AttributeEffect(prims, ApplyAll(prims, p, init).0, attrs[|attrs| - 1]);
      assert forall i :: 0 <= i < |init| ==> init[i] == attrs[i];
    }
  }

  /** When the loop gets through, the last `rtpmap` decides the codec and the last `fmtp`
      the options, split on spaces. */
  lemma {:induction false} ApplyAllLastWins(prims: Primitives, p: Parsed, attrs: seq<Option<string>>)
    requires ApplyAll(prims, p, attrs).1
    ensures var q := ApplyAll(prims, p, attrs).0;
      && q.audio.audioCodec == (if LastValue(attrs, "rtpmap").Some? then LastValue(attrs, "rtpmap") else p.audio.audioCodec)
      && q.audio.audioOptions == (if LastValue(attrs, "fmtp").Some? then Some(Split(LastValue(attrs, "fmtp").value, " ")) else p.audio.audioOptions)
    decreases |attrs|
  {
    if |attrs| > 0 {
      var init := attrs[..|attrs| - 1];
      ApplyAllSnoc(prims, p, attrs);
      ApplyAllLastWins(prims, p, init);
      AttributeEffect(prims, ApplyAll(prims, p, init).0, attrs[|attrs| - 1]);
    }
  }

  /** When the loop gets through, one 415 has been sent per unsupported `rtpmap`. */
  lemma {:induction false} ApplyAllRefusals(prims: Primitives, p: Parsed, attrs: seq<Option<string>>)
    requires ApplyAll(prims, p, attrs).1
    ensures |ApplyAll(prims, p, attrs).0.res.sent| == |p.res.sent| + Unsupported(attrs)
    ensures |ApplyAll(prims, p, attrs).0.notes| == |p.notes| + Unsupported(attrs)
    decreases |attrs|
  {
    if |attrs| > 0 {
      var init := attrs[..|attrs| - 1];
      ApplyAllSnoc(prims, p, attrs);
      ApplyAllRefusals(prims, p, init);
      AttributeEffect(prims, ApplyAll(prims, p, init).0, attrs[|attrs| - 1]);
    }
  }

  /** The loop over the first `i + 1` lines, from the loop over the first `i` when that got through. */
  lemma ApplyAllStep(prims: Primitives, p: Parsed, attrs: seq<Option<string>>, i: nat, q: Parsed)
    requires i < |attrs| && ApplyAll(prims, p, attrs[..i]) == (q, true)
    ensures var step := ApplyAttribute(prims, q, attrs[i]);
      ApplyAll(prims, p, attrs[..i + 1]) == if step.Some? then (step.value, true) else (q, false)
  {
    assert attrs[..i + 1][..i] == attrs[..i];
    ApplyAllSnoc(prims, p, attrs[..i + 1]);
  }

  /** Once an iteration throws, the later lines change nothing more. */
  lemma {:induction false} ThrownStays(prims: Primitives, p: Parsed, attrs: seq<Option<string>>, i: nat)
    requires i <= |attrs| && !ApplyAll(prims, p, attrs[..i]).1
    ensures ApplyAll(prims, p, attrs) == ApplyAll(prims, p, attrs[..i])
    decreases |attrs| - i
  {
    if i < |attrs| {
      assert attrs[..i + 1][..i] == attrs[..i];
      ThrownStays(prims, p, attrs, i + 1);
    } else {
      assert attrs[..i] == attrs;
    }
  }

  /** One iteration of `announceParse`'s loop, on the server's fields: what ApplyAttribute
      says, and nothing changed where it throws. */
  method ApplyLine(prims: Primitives, server: RtspServer, a: Option<string>, res: Response, ghost notes: seq<Notification>)
    returns (res': Response, ghost added: seq<Notification>, ok: bool)
    modifies server`audioAesKey, server`audioAesIv, server`audioCodec, server`audioOptions, server`notifications
    ensures var r := ApplyAttribute(prims, Parsed(old(server.Audio()), res, notes), a);
      ok == r.Some? && (ok ==> Parsed(server.Audio(), res', notes + added) == r.value)
    ensures server.notifications == old(server.notifications) + added
    ensures !ok ==> server.Audio() == old(server.Audio()) && res' == res && added == []
  {
    res', added := res, [];
    if a.None? {
      return res', added, false;
    }
    var (key, value) := SplitAttribute(a.value);
    if key == "rsaaeskey" {
      var k := prims.rsaOaepDecrypt(prims.base64Decode(value));
      if k.None? {
        return res', added, false;
      }
      server.audioAesKey := Some(k.value);
    } else if key == "aesiv" {
      server.audioAesIv := Some(prims.base64Decode(value));
    } else if key == "rtpmap" {
      server.audioCodec := Some(value);
      if !CodecSupported(value) {
        server.notifications := server.notifications + [UnsupportedCodec(value)];
        added := [UnsupportedCodec(value)];
        res' := SendStatus(res, 415);
      }
    } else if key == "fmtp" {
      server.audioOptions := Some(Split(value, " "));
    }
    ok := true;
  }

  /** `announceParse`'s loop, on the server's fields. */
  method ApplyAttributes(prims: Primitives, server: RtspServer, attrs: seq<Option<string>>, res: Response)
    returns (res': Response, completed: bool)
    modifies server`audioAesKey, server`audioAesIv, server`audioCodec, server`audioOptions, server`notifications
    ensures var r := ApplyAll(prims, Parsed(old(server.Audio()), res, []), attrs);
      server.Audio() == r.0.audio && res' == r.0.res && server.notifications == old(server.notifications) + r.0.notes
      && completed == r.1
  {
    ghost var p0 := Parsed(server.Audio(), res, []);
    ghost var notes: seq<Notification> := [];
    res' := res;
    var i := 0;
    while i < |attrs|
      invariant 0 <= i <= |attrs|
      invariant ApplyAll(prims, p0, attrs[..i]) == (Parsed(server.Audio(), res', notes), true)
      invariant server.notifications == old(server.notifications) + notes
    {
      ApplyAllStep(prims, p0, attrs, i, Parsed(server.Audio(), res', notes));
      ghost var added;
      var ok;
      res', added, ok := ApplyLine(prims, server, attrs[i], res', notes);
      notes := notes + added;
      if !ok {
        ThrownStays(prims, p0, attrs, i + 1);
        return res', false;
      }
      i := i + 1;
    }
    assert attrs[..i] == attrs;
    return res', true;
  }

  /** `sdp.i` when truthy. */
  function ClientNameOf(sdp: Sdp.SdpMap): Option<string> {
    if "i" in sdp && sdp["i"].Single? && sdp["i"].value.Some? && sdp["i"].value.value != "" then sdp["i"].value
    else None
  }

  /** `sdp.c` is truthy and mentions IP6. */
  predicate UsesIpv6(sdp: Sdp.SdpMap) {
    "c" in sdp && sdp["c"].Single? && sdp["c"].value.Some? && Contains(sdp["c"].value.value, "IP6")
  }

  /** What `announceParse` does to the server and the response, stated against the
      functions above. */
  twostate predicate ParsedAnnounce(prims: Primitives, server: RtspServer, req: Request, res: Response,
                                    res': Response, outcome: Outcome)
    reads server, server.outputStream
  {
    var lines := Split(prims.utf8Decode(req.content), "\r\n");
    AnnounceEffect(prims, server, Sdp.Fold(lines), Sdp.ValuesFor(lines, "a"), req, res, res', outcome)
  }

  /** The same, for the parsed SDP and the values of its `a` lines. */
  twostate predicate AnnounceEffect(prims: Primitives, server: RtspServer, new sdp: Sdp.SdpMap, new attrs: seq<Option<string>>,
                                    req: Request, res: Response, res': Response, outcome: Outcome)
    reads server, server.outputStream
  {
    var r := ApplyAll(prims, Parsed(old(server.Audio()), res, []), attrs);
    var name := ClientNameOf(sdp);
    var dec := DecoderStream(r.0.audio.audioCodec, Helper.GetDecoderOptions(r.0.audio.audioOptions));
    && server.socket == old(server.socket) && server.handling == old(server.handling)
    && server.ports == old(server.ports) && server.socketActions == old(server.socketActions)
    && server.Audio() == (if |attrs| == 0 then old(server.Audio()) else r.0.audio)
    && (|attrs| == 0 || !r.1 ==>
         && outcome.Threw? && res' == (if |attrs| == 0 then res else r.0.res)
         && server.notifications == old(server.notifications) + (if |attrs| == 0 then [] else r.0.notes)
         && server.metadata == old(server.metadata) && server.ipv6 == old(server.ipv6)
         && server.clientConnected == old(server.clientConnected) && server.outputStream == old(server.outputStream)
         && server.decoder == old(server.decoder))
    && (|attrs| > 0 && r.1 ==>
         && server.metadata == (if name.Some? then old(server.metadata)["clientName" := ClientName(name.value)] else old(server.metadata))
         && server.ipv6 == (old(server.ipv6) || UsesIpv6(sdp))
         && server.notifications == old(server.notifications) + r.0.notes
              + (if name.Some? then [ClientNameChange(name.value)] else [])
              + (if dec.Some? then [ClientConnected] else [])
         && Connected(server, req, r.0.res, res', outcome))
  }

  /** `announceParse`: read the SDP body, apply its `a` lines, the client name and the
      address family, then create the output stream for the codec and connect the client. */
  method AnnounceParse(prims: Primitives, server: RtspServer, req: Request, res: Response)
    returns (res': Response, outcome: Outcome)
    requires server.Valid() && server.clientConnected.None?
    modifies server
    ensures server.Valid()
    ensures ParsedAnnounce(prims, server, req, res, res', outcome)
  {
    var text := prims.utf8Decode(req.content);
    var sdp := Sdp.ParseSdp(text);
    ghost var lines := Split(text, "\r\n");
    Sdp.FoldGroups(lines, "a");
    if "a" !in sdp {
      return res, Threw("TypeError: Cannot read property 'length' of undefined");
    }
    assert Sdp.IsMultiKey("a");
    res', outcome := ApplyAttributesAndComplete(prims, server, sdp, sdp["a"].values, req, res);
  }

  /** The loop over the `a` values, then the rest. */
  method ApplyAttributesAndComplete(prims: Primitives, server: RtspServer, sdp: Sdp.SdpMap, attrs: seq<Option<string>>,
                                    req: Request, res: Response)
    returns (res': Response, outcome: Outcome)
    requires server.Valid() && server.clientConnected.None? && |attrs| > 0
    modifies server
    ensures server.Valid()
    ensures AnnounceEffect(prims, server, sdp, attrs, req, res, res', outcome)
  {
    var completed;
    res', completed := ApplyAttributes(prims, server, attrs, res);
    if !completed {
      return res', Threw("TypeError");
    }
    res', outcome := AnnounceComplete(server, sdp, req, res');
  }

  /** The rest of `announceParse` once the `a` lines are applied: the client name, the
      address family, then the decoder for the codec and the client connected. */
  method AnnounceComplete(server: RtspServer, sdp: Sdp.SdpMap, req: Request, res: Response)
    returns (res': Response, outcome: Outcome)
    requires server.Valid() && server.clientConnected.None?
    modifies server`metadata, server`notifications, server`ipv6, server`clientConnected,
             server`outputStream, server`decoder
    ensures server.Valid()
    ensures var name := ClientNameOf(sdp);
      && server.metadata == (if name.Some? then old(server.metadata)["clientName" := ClientName(name.value)] else old(server.metadata))
      && server.ipv6 == (old(server.ipv6) || UsesIpv6(sdp))
    ensures var name := ClientNameOf(sdp);
      var dec := DecoderStream(server.audioCodec, Helper.GetDecoderOptions(server.audioOptions));
      server.notifications == old(server.notifications)
        + (if name.Some? then [ClientNameChange(name.value)] else [])
        + (if dec.Some? then [ClientConnected] else [])
    ensures Connected(server, req, res, res', outcome)
  {
    var name := ClientNameOf(sdp);
    if name.Some? {
      server.metadata := server.metadata["clientName" := ClientName(name.value)];
      server.notifications := server.notifications + [ClientNameChange(name.value)];
    }
    if UsesIpv6(sdp) {
      server.ipv6 := true;
    }
    res', outcome := ConnectClient(server, req, res);
  }

  /** The decoder for the negotiated codec; the client connected with a fresh output
      stream when there is one, a throw when there is none. */
  twostate predicate Connected(server: RtspServer, req: Request, res: Response, res': Response, outcome: Outcome)
    reads server, server.outputStream
  {
    var dec := DecoderStream(server.audioCodec, Helper.GetDecoderOptions(server.audioOptions));
    && (dec.None? ==> outcome.Threw? && res' == res && server.clientConnected == old(server.clientConnected)
                      && server.outputStream == old(server.outputStream) && server.decoder == old(server.decoder))
    && (dec.Some? ==> outcome.Completed? && res' == Send(res)
                      && server.clientConnected == Some(req.socket) && server.decoder == dec
                      && server.outputStream != null && fresh(server.outputStream)
                      && server.outputStream.Valid() && server.outputStream.isFlowing
                      && server.outputStream.bufferQueue == [])
  }

  method ConnectClient(server: RtspServer, req: Request, res: Response) returns (res': Response, outcome: Outcome)
    requires server.Valid() && server.clientConnected.None?
    modifies server`notifications, server`clientConnected, server`outputStream, server`decoder
    ensures server.Valid()
    ensures Connected(server, req, res, res', outcome)
    ensures server.notifications == old(server.notifications) + if outcome.Completed? then [ClientConnected] else []
  {
    var decoderOptions := Helper.GetDecoderOptions(server.audioOptions);
    var decoderStream := DecoderStream(server.audioCodec, decoderOptions);
    if decoderStream.None? {
      return res, Threw("TypeError: DECODER_STREAMS[audioCodec] is not a constructor");
    }
    server.clientConnected := Some(req.socket);
    server.outputStream := new BaseStream.BaseDecoderStream();
    server.decoder := decoderStream;
    server.notifications := server.notifications + [ClientConnected];
    res' := Send(res);
    return res', Completed;
  }

  // ================================================================ ANNOUNCE

  /** `map[k]` of the parsed Authorization header: None for `undefined`. */
  function Lookup(m: map<string, Option<string>>, k: string): Option<string> {
    if k in m then m[k] else None
  }

  /** One parameter: quotes removed, key before the first `=`, value between the first and
      the second (`undefined` when there is none). */
  function AuthEntry(param: string): (string, Option<string>) {
    var pair := Split(Remove(param, '"'), "=");
    (pair[0], if |pair| > 1 then Some(pair[1]) else None)
  }

  function AuthMap(params: seq<string>): map<string, Option<string>>
    decreases |params|
  {
    if |params| == 0 then map[]
    else
      var e := AuthEntry(params[|params| - 1]);
      AuthMap(params[..|params| - 1])[e.0 := e.1]
  }

  /** The Authorization header split on ", " into a dictionary; a repeated key keeps its
      last value. */
  function ParseAuthorization(auth: string): map<string, Option<string>> {
    AuthMap(Split(auth, ", "))
  }

  /** The digest the server expects; a missing `uri` is formatted as "undefined". */
  function ExpectedResponse(md5Hex: string -> string, password: string, nonce: string,
                            m: map<string, Option<string>>): string {
    var uri := match Lookup(m, "uri") case None => "undefined" case Some(u) => u;
    Helper.GenerateRfc2617Response(md5Hex, "iTunes", "roap", password, nonce, uri, "ANNOUNCE")
  }

  datatype AnnounceRoute = Busy | Challenge | Verified | Refused | Unprotected

  /** `announce`'s decision ladder. */
  function Route(md5Hex: string -> string, connected: bool, password: string, req: Request, nonce: string)
    : (route: AnnounceRoute)
    ensures route == Busy <==> connected
    ensures route == Unprotected <==> !connected && password == ""
    ensures route == Challenge <==> !connected && password != "" && !HasHeader(req, "authorization")
    ensures route == Verified <==>
      !connected && password != "" && HasHeader(req, "authorization")
      && Lookup(ParseAuthorization(req.headers["authorization"]), "response")
         == Some(ExpectedResponse(md5Hex, password, nonce, ParseAuthorization(req.headers["authorization"])))
  {
    if connected then Busy
    else if password != "" && !HasHeader(req, "authorization") then Challenge
    else if password != "" then
      var m := ParseAuthorization(req.headers["authorization"]);
      if Lookup(m, "response") == Some(ExpectedResponse(md5Hex, password, nonce, m)) then Verified else Refused
    else Unprotected
  }

  function WwwAuthenticate(nonce: string): string {
    "Digest realm=\"roap\", nonce=\"" + nonce + "\""
  }

  /** What `announce` does, by route: 453 while a client is connected; a 401 challenge
      with a fresh nonce when a password is set and no credentials came; 401 for a wrong
      digest; otherwise `announceParse`. */
  twostate predicate Announced(prims: Primitives, server: RtspServer, nonce: NonceCell, req: Request, res: Response,
                               freshNonce: string, res': Response, outcome: Outcome)
    reads server, server.outputStream, nonce
  {
    var route := Route(prims.md5Hex, old(server.clientConnected).Some?, server.password, req, old(nonce.value));
    && (route == Busy ==> res' == SendStatus(res, 453) && unchanged(server) && unchanged(nonce) && outcome.Completed?)
    && (route == Challenge ==>
          res' == Send(SetHeader(res.(statusCode := 401), "www-authenticate", WwwAuthenticate(freshNonce)))
          && nonce.value == freshNonce && unchanged(server) && outcome.Completed?)
    && (route == Refused ==> res' == SendStatus(res, 401) && unchanged(server) && unchanged(nonce) && outcome.Completed?)
    && (route == Verified || route == Unprotected ==>
          ParsedAnnounce(prims, server, req, res, res', outcome) && unchanged(nonce))
  }

  /** `announce`. `freshNonce` is the MD5 hex digest of 256 random octets. */
  method Announce(prims: Primitives, server: RtspServer, nonce: NonceCell, req: Request, res: Response,
                  freshNonce: string)
    returns (res': Response, outcome: Outcome)
    requires server.Valid()
    modifies server, nonce
    ensures server.Valid()
    ensures Announced(prims, server, nonce, req, res, freshNonce, res', outcome)
  {
    var route := Route(prims.md5Hex, server.clientConnected.Some?, server.password, req, nonce.value);
    if server.clientConnected.Some? {
      return SendStatus(res, 453), Completed;
    } else if server.password != "" && !HasHeader(req, "authorization") {
      nonce.value := freshNonce;
      res' := res.(statusCode := 401);
      res' := SetHeader(res', "www-authenticate", WwwAuthenticate(nonce.value));
      return Send(res'), Completed;
    } else if server.password != "" {
      var m := ParseAuthorization(req.headers["authorization"]);
      var expectedResponse := ExpectedResponse(prims.md5Hex, server.password, nonce.value, m);
      if Lookup(m, "response") == Some(expectedResponse) {
        res', outcome := AnnounceParse(prims, server, req, res);
      } else {
        return SendStatus(res, 401), Completed;
      }
    } else {
      res', outcome := AnnounceParse(prims, server, req, res);
    }
  }

  // ---------------------------------------------------------------- digest round trip

  /** A key or value the client writes between separators: no quote, `=` or comma. */
  predicate Plain(s: string) {
    forall i :: 0 <= i < |s| ==> s[i] != '"' && s[i] != '=' && s[i] != ','
  }

  /** `key="value"`. */
  function Param(kv: (string, string)): string {
    kv.0 + "=" + "\"" + kv.1 + "\""
  }

  function Params(pairs: seq<(string, string)>): (ps: seq<string>)
    ensures |ps| == |pairs| && forall i :: 0 <= i < |pairs| ==> ps[i] == Param(pairs[i])
  {
    seq(|pairs|, i requires 0 <= i < |pairs| => Param(pairs[i]))
  }

  /** The dictionary the pairs denote, a repeated key keeping its last value. */
  function PairsMap(pairs: seq<(string, string)>): map<string, Option<string>>
    decreases |pairs|
  {
    if |pairs| == 0 then map[]
    else PairsMap(pairs[..|pairs| - 1])[pairs[|pairs| - 1].0 := Some(pairs[|pairs| - 1].1)]
  }

  lemma RemoveQuote()
    ensures Remove("\"", '"') == []
  {
    assert "\""[1..] == [];
  }

  lemma DropQuote(a: string)
    ensures Remove(a + "\"", '"') == Remove(a, '"')
  {
    RemoveConcat(a, "\"", '"');
    RemoveQuote();
  }

  lemma RemoveQuotes(k: string, v: string)
    requires Plain(k) && Plain(v)
    ensures Remove(Param((k, v)), '"') == k + "=" + v
  {
    var kq := k + "=";
    assert forall i :: 0 <= i < |kq| ==> kq[i] != '"';
    DropQuote(kq + "\"" + v);
    RemoveConcat(kq + "\"", v, '"');
    DropQuote(kq);
  }

  lemma EntryOfParam(kv: (string, string))
    requires Plain(kv.0) && Plain(kv.1)
    ensures AuthEntry(Param(kv)) == (kv.0, Some(kv.1))
  {
    var (k, v) := kv;
    RemoveQuotes(k, v);
    SplitAfterFree(k, "=", v);
    SplitFree(v, "=");
  }

  lemma AuthMapSnoc(ps: seq<string>)
    requires |ps| > 0
    ensures var e := AuthEntry(ps[|ps| - 1]); AuthMap(ps) == AuthMap(ps[..|ps| - 1])[e.0 := e.1]
  {
  }

  lemma ParamsPrefix(pairs: seq<(string, string)>, n: nat)
    requires n <= |pairs|
    ensures Params(pairs)[..n] == Params(pairs[..n])
  {
  }

  /** The parameters of `key="value"` pairs read back as the dictionary of the pairs. */
  lemma {:induction false} AuthMapOfParams(pairs: seq<(string, string)>)
    requires forall i :: 0 <= i < |pairs| ==> Plain(pairs[i].0) && Plain(pairs[i].1)
    ensures AuthMap(Params(pairs)) == PairsMap(pairs)
    decreases |pairs|
  {
    if |pairs| > 0 {
      var n := |pairs|;
      var ps := Params(pairs);
      ParamsPrefix(pairs, n - 1);
      AuthMapSnoc(ps);
      AuthMapOfParams(pairs[..n - 1]);
      EntryOfParam(pairs[n - 1]);
    }
  }

  lemma ParamHasNoComma(kv: (string, string))
    requires Plain(kv.0) && Plain(kv.1)
    ensures forall i :: 0 <= i < |Param(kv)| ==> Param(kv)[i] != ','
  {
    var kq := kv.0 + "=";
    assert forall i :: 0 <= i < |kq| ==> kq[i] != ',';
    var kqq := kq + "\"";
    assert forall i :: 0 <= i < |kqq| ==> kqq[i] != ',';
    var kqqv := kqq + kv.1;
    assert forall i :: 0 <= i < |kqqv| ==> kqqv[i] != ',';
  }

  lemma ParamsHaveNoComma(pairs: seq<(string, string)>)
    requires forall i :: 0 <= i < |pairs| ==> Plain(pairs[i].0) && Plain(pairs[i].1)
    ensures forall p, i :: p in Params(pairs) && 0 <= i < |p| ==> p[i] != ", "[0]
  {
    var ps := Params(pairs);
    forall p, i | p in ps && 0 <= i < |p|
      ensures p[i] != ", "[0]
    {
      var j :| 0 <= j < |ps| && ps[j] == p;
      ParamHasNoComma(pairs[j]);
    }
  }

  /** A header of `key="value"` parameters joined with ", " is read back as those pairs. */
  lemma AuthorizationRoundTrip(pairs: seq<(string, string)>)
    requires |pairs| >= 1
    requires forall i :: 0 <= i < |pairs| ==> Plain(pairs[i].0) && Plain(pairs[i].1)
    ensures ParseAuthorization(Strings.Join(Params(pairs), ", ")) == PairsMap(pairs)
  {
    ParamsHaveNoComma(pairs);
    SplitJoinFree(Params(pairs), ", ");
    AuthMapOfParams(pairs);
  }

  /** The Authorization header iTunes sends, for a stored nonce, a URI and a response. */
  function ITunesAuthorization(nonce: string, uri: string, response: string): string {
    Strings.Join(Params([("Digest username", "iTunes"), ("realm", "roap"), ("nonce", nonce),
                         ("uri", uri), ("response", response)]), ", ")
  }

  /** A client that answers the stored nonce with the RFC 2617 digest of the shared
      password is let through to `announceParse`; any other response is refused. */
  lemma DigestAccepted(md5Hex: string -> string, password: string, nonce: string, uri: string,
                       response: string, req: Request)
    requires password != "" && Plain(nonce) && Plain(uri) && Plain(response)
    requires "authorization" in req.headers && req.headers["authorization"] == ITunesAuthorization(nonce, uri, response)
    ensures Route(md5Hex, false, password, req, nonce) == Verified <==>
      response == Helper.GenerateRfc2617Response(md5Hex, "iTunes", "roap", password, nonce, uri, "ANNOUNCE")
  {
    var pairs := [("Digest username", "iTunes"), ("realm", "roap"), ("nonce", nonce), ("uri", uri), ("response", response)];
    assert Plain("Digest username") && Plain("iTunes") && Plain("realm") && Plain("roap");
    assert Plain("nonce") && Plain("uri") && Plain("response");
    AuthorizationRoundTrip(pairs);
    var m := PairsMap(pairs);
    assert Lookup(m, "uri") == Some(uri);
    assert Lookup(m, "response") == Some(response);
    assert |req.headers["authorization"]| > 0 by {
      assert Strings.Join(Params(pairs), ", ") == Params(pairs)[0] + ", " + Strings.Join(Params(pairs)[1..], ", ");
    }
  }

  // ================================================================ SETUP

  /** The `transport` header SETUP answers with. */
  function TransportHeader(serverPort: nat, controlPort: nat, timingPort: nat): string {
    "RTP/AVP/UDP;unicast;mode=record;server_port=" + DecimalString(serverPort)
    + ";control_port=" + DecimalString(controlPort) + ";timing_port=" + DecimalString(timingPort)
  }

  /** `parseInt` of the text after the `=` of a `name=value` parameter. */
  function PortField(param: string): Option<int> {
    var kv := Split(param, "=");
    if |kv| == 2 then ParseInt10(kv[1]) else None
  }

  lemma DigitsFree(n: nat, c: char)
    requires !IsDigit(c)
    ensures forall i :: 0 <= i < |DecimalString(n)| ==> DecimalString(n)[i] != c
  {
  }

  lemma PortFieldOf(name: string, n: nat)
    requires EqualsFree(name)
    ensures PortField(name + "=" + DecimalString(n)) == Some(n)
  {
    DigitsFree(n, '=');
    SplitAfterFree(name, "=", DecimalString(n));
    SplitFree(DecimalString(n), "=");
    ParseDecimal(n);
  }

  lemma NoSemicolon(name: string, n: nat)
    requires forall i :: 0 <= i < |name| ==> name[i] != ';'
    ensures forall i :: 0 <= i < |name + DecimalString(n)| ==> (name + DecimalString(n))[i] != ';'
  {
    DigitsFree(n, ';');
  }

  predicate SemicolonFree(s: string) {
    forall i :: 0 <= i < |s| ==> s[i] != ';'
  }

  lemma SplitTwo(a: string, b: string)
    requires SemicolonFree(a) && SemicolonFree(b)
    ensures Split(a + ";" + b, ";") == [a, b]
  {
    SplitFree(b, ";");
    SplitAfterFree(a, ";", b);
  }

  lemma SplitThree(a: string, b: string, c: string)
    requires SemicolonFree(a) && SemicolonFree(b) && SemicolonFree(c)
    ensures Split(a + ";" + b + ";" + c, ";") == [a, b, c]
  {
    assert a + ";" + b + ";" + c == a + ";" + (b + ";" + c);
    SplitFree(c, ";");
    SplitAfterFree(b, ";", c);
    SplitAfterFree(a, ";", b + ";" + c);
  }

  lemma LeadLiteral()
    ensures "RTP/AVP/UDP;unicast;mode=record;server_port=" == "RTP/AVP/UDP;unicast;mode=record;" + "server_port="
  {
  }

  lemma PortLiterals()
    ensures ";control_port=" == ";" + "control_port=" && ";timing_port=" == ";" + "timing_port="
  {
  }

  predicate EqualsFree(name: string) {
    forall i :: 0 <= i < |name| ==> name[i] != '='
  }

  lemma PortKeys()
    ensures "server_port=" == "server_port" + "=" && "control_port=" == "control_port" + "="
    ensures "timing_port=" == "timing_port" + "="
    ensures EqualsFree("server_port") && EqualsFree("control_port") && EqualsFree("timing_port")
  {
  }

  lemma Regroup(lead: string, k1: string, a: string, k2: string, b: string, k3: string, c: string)
    ensures lead + k1 + a + (";" + k2) + b + (";" + k3) + c == lead + ((k1 + a) + ";" + (k2 + b) + ";" + (k3 + c))
  {
  }

  lemma TransportShape(x: nat, y: nat, z: nat)
    ensures TransportHeader(x, y, z) == "RTP/AVP/UDP;unicast;mode=record;" +
      (("server_port=" + DecimalString(x)) + ";" + ("control_port=" + DecimalString(y)) + ";" + ("timing_port=" + DecimalString(z)))
  {
    LeadLiteral();
    PortLiterals();
    Regroup("RTP/AVP/UDP;unicast;mode=record;", "server_port=", DecimalString(x), "control_port=", DecimalString(y),
            "timing_port=", DecimalString(z));
  }

  lemma LeadShape(rest: string)
    ensures "RTP/AVP/UDP;unicast;mode=record;" + rest == "RTP/AVP/UDP" + ";" + ("unicast" + ";" + ("mode=record" + ";" + rest))
  {
    assert "RTP/AVP/UDP;unicast;mode=record;" == "RTP/AVP/UDP" + ";" + "unicast" + ";" + "mode=record" + ";";
  }

  lemma SplitLead(rest: string)
    ensures Split("RTP/AVP/UDP;unicast;mode=record;" + rest, ";") == ["RTP/AVP/UDP", "unicast", "mode=record"] + Split(rest, ";")
  {
    var t2 := "mode=record" + ";" + rest;
    var t1 := "unicast" + ";" + t2;
    calc {
      Split("RTP/AVP/UDP;unicast;mode=record;" + rest, ";");
      { LeadShape(rest); }
      Split("RTP/AVP/UDP" + ";" + t1, ";");
      { SplitAfterFree("RTP/AVP/UDP", ";", t1); }
      ["RTP/AVP/UDP"] + Split(t1, ";");
      { SplitAfterFree("unicast", ";", t2); }
      ["RTP/AVP/UDP"] + (["unicast"] + Split(t2, ";"));
      { SplitAfterFree("mode=record", ";", rest); }
      ["RTP/AVP/UDP"] + (["unicast"] + (["mode=record"] + Split(rest, ";")));
    }
  }

  lemma TransportPieces(serverPort: nat, controlPort: nat, timingPort: nat)
    ensures Split(TransportHeader(serverPort, controlPort, timingPort), ";")
      == ["RTP/AVP/UDP", "unicast", "mode=record", "server_port=" + DecimalString(serverPort),
          "control_port=" + DecimalString(controlPort), "timing_port=" + DecimalString(timingPort)]
  {
    var p3, p4, p5 := "server_port=" + DecimalString(serverPort), "control_port=" + DecimalString(controlPort),
      "timing_port=" + DecimalString(timingPort);
    NoSemicolon("server_port=", serverPort);
    NoSemicolon("control_port=", controlPort);
    NoSemicolon("timing_port=", timingPort);
    SplitThree(p3, p4, p5);
    TransportShape(serverPort, controlPort, timingPort);
    SplitLead(p3 + ";" + p4 + ";" + p5);
  }

  /** A client reading the transport header back, split on ";", finds the three ports in
      the order server, control, timing. */
  lemma TransportRoundTrip(serverPort: nat, controlPort: nat, timingPort: nat)
    ensures var params := Split(TransportHeader(serverPort, controlPort, timingPort), ";");
      |params| == 6 && params[..3] == ["RTP/AVP/UDP", "unicast", "mode=record"]
      && PortField(params[3]) == Some(serverPort) && PortField(params[4]) == Some(controlPort)
      && PortField(params[5]) == Some(timingPort)
  {
    var params := Split(TransportHeader(serverPort, controlPort, timingPort), ";");
    TransportPieces(serverPort, controlPort, timingPort);
    PortKeys();
    PortsRead(params, "server_port", "control_port", "timing_port", serverPort, controlPort, timingPort);
  }

  /** Three `key=<decimal>` parameters at positions 3, 4 and 5 read back as their numbers. */
  lemma PortsRead(params: seq<string>, k1: string, k2: string, k3: string, x: nat, y: nat, z: nat)
    requires EqualsFree(k1) && EqualsFree(k2) && EqualsFree(k3)
    requires |params| == 6 && params[3] == k1 + "=" + DecimalString(x)
    requires params[4] == k2 + "=" + DecimalString(y) && params[5] == k3 + "=" + DecimalString(z)
    ensures PortField(params[3]) == Some(x) && PortField(params[4]) == Some(y) && PortField(params[5]) == Some(z)
  {
    PortFieldOf(k1, x);
    PortFieldOf(k2, y);
    PortFieldOf(k3, z);
  }

  /** The headers `setup` sets once the RTP server runs, then the send. */
  method AnswerSetup(res: Response, serverPort: nat, controlPort: nat, timingPort: nat) returns (res': Response)
    ensures res' == Send(SetHeader(SetHeader(SetHeader(res,
      "transport", TransportHeader(serverPort, controlPort, timingPort)),
      "session", "1"), "audio-jack-status", "connected"))
  {
    res' := SetHeader(res, "transport", TransportHeader(serverPort, controlPort, timingPort));
    res' := SetHeader(res', "session", "1");
    res' := SetHeader(res', "audio-jack-status", "connected");
    res' := Send(res');
  }

  /** `setup`: three ports picked at random in [5000, 9999], the RTP server started on them,
      and the transport, session and jack status reported. */
  method Setup(server: RtspServer, res: Response) returns (res': Response)
    requires server.Valid()
    modifies server`ports, server.rtp
    ensures server.Valid()
    ensures |server.ports| == 3 && forall k :: 0 <= k < 3 ==> 5000 <= server.ports[k] <= 9999
    ensures server.rtp.started && server.rtp.socketsOpen && server.rtp.ports == server.ports
    ensures server.rtp.udp6 == server.ipv6 && server.rtp.timeoutCounter == -1
    ensures res' == Send(SetHeader(SetHeader(SetHeader(res,
      "transport", TransportHeader(server.ports[0], server.ports[1], server.ports[2])),
      "session", "1"), "audio-jack-status", "connected"))
  {
    server.ports := [];
    var p0: nat :| 5000 <= p0 <= 9999;
    var p1: nat :| 5000 <= p1 <= 9999;
    var p2: nat :| 5000 <= p2 <= 9999;
    server.ports := [p0, p1, p2];
    server.rtp.Start(server.ipv6, p0, p1, p2);
    res' := AnswerSetup(res, server.ports[0], server.ports[1], server.ports[2]);
  }

  // ================================================================ RECORD, FLUSH, TEARDOWN

  /** The text after the first `=` of a parameter, up to a second one (`split('=')[1]`). */
  function FieldValue(param: string): Option<string> {
    var kv := Split(param, "=");
    if |kv| >= 2 then Some(kv[1]) else None
  }

  predicate Truthy(v: Option<string>) {
    v.Some? && v.value != ""
  }

  datatype RecordAnswer = Acknowledged | BadRequest | WithLatency | RecordThrows

  /** `record`'s decision: no `rtp-info`, a missing second parameter (which throws), an
      empty or missing sequence number or RTP time (400), or a valid one. */
  function RecordAnswerFor(req: Request): (answer: RecordAnswer)
    ensures answer == Acknowledged <==> !HasHeader(req, "rtp-info")
    ensures answer == RecordThrows <==> HasHeader(req, "rtp-info") && |Split(req.headers["rtp-info"], ";")| < 2
  {
    if !HasHeader(req, "rtp-info") then Acknowledged
    else
      var rtpInfo := Split(req.headers["rtp-info"], ";");
      if |rtpInfo| < 2 then RecordThrows
      else if !Truthy(FieldValue(rtpInfo[0])) || !Truthy(FieldValue(rtpInfo[1])) then BadRequest
      else WithLatency
  }

  /** `record`. A 400 is sent, then the response is sent a second time. */
  method Record(req: Request, res: Response) returns (res': Response, outcome: Outcome)
    ensures outcome.Threw? <==> RecordAnswerFor(req) == RecordThrows
    ensures RecordAnswerFor(req) == Acknowledged ==> res' == Send(res)
    ensures RecordAnswerFor(req) == BadRequest ==> res' == Send(SendStatus(res, 400))
    ensures RecordAnswerFor(req) == WithLatency ==> res' == Send(SetHeader(res, "audio-latency", "0"))
    ensures RecordAnswerFor(req) == RecordThrows ==> res' == res
  {
    res' := res;
    if HasHeader(req, "rtp-info") {
      var rtpInfo := Split(req.headers["rtp-info"], ";");
      var initSeq := FieldValue(rtpInfo[0]);
      if |rtpInfo| < 2 {
        return res, Threw("TypeError: Cannot read property 'split' of undefined");
      }
      var initRtpTime := FieldValue(rtpInfo[1]);
      if !Truthy(initSeq) || !Truthy(initRtpTime) {
        res' := SendStatus(res', 400);
      } else {
        res' := SetHeader(res', "audio-latency", "0");
      }
    }
    return Send(res'), Completed;
  }

  /** The `rtp-info` header a sender writes, with its sequence number and RTP time. */
  function RtpInfo(initSeq: nat, initRtpTime: nat): string {
    "seq=" + DecimalString(initSeq) + ";rtptime=" + DecimalString(initRtpTime)
  }

  lemma FieldValueOf(name: string, n: nat)
    requires forall i :: 0 <= i < |name| ==> name[i] != '='
    ensures FieldValue(name + "=" + DecimalString(n)) == Some(DecimalString(n))
  {
    DigitsFree(n, '=');
    SplitAfterFree(name, "=", DecimalString(n));
    SplitFree(DecimalString(n), "=");
  }

  lemma RtpInfoPieces(initSeq: nat, initRtpTime: nat)
    ensures Split(RtpInfo(initSeq, initRtpTime), ";")
      == ["seq" + "=" + DecimalString(initSeq), "rtptime" + "=" + DecimalString(initRtpTime)]
  {
    var a, b := DecimalString(initSeq), DecimalString(initRtpTime);
    NoSemicolon("seq=", initSeq);
    NoSemicolon("rtptime=", initRtpTime);
    calc {
      Split(RtpInfo(initSeq, initRtpTime), ";");
      { assert ";rtptime=" == ";" + "rtptime=";
        assert RtpInfo(initSeq, initRtpTime) == ("seq=" + a) + ";" + ("rtptime=" + b); }
      Split(("seq=" + a) + ";" + ("rtptime=" + b), ";");
      { SplitAfterFree("seq=" + a, ";", "rtptime=" + b); }
      ["seq=" + a] + Split("rtptime=" + b, ";");
      { SplitFree("rtptime=" + b, ";"); }
      ["seq=" + a, "rtptime=" + b];
      { assert "seq=" == "seq" + "=" && "rtptime=" == "rtptime" + "="; }
      ["seq" + "=" + a, "rtptime" + "=" + b];
    }
  }

  /** `record`'s answer for an `rtp-info` of two parameters. */
  lemma AnswerOfPieces(req: Request, x: string, y: string)
    requires HasHeader(req, "rtp-info") && Split(req.headers["rtp-info"], ";") == [x, y]
    ensures RecordAnswerFor(req) == if Truthy(FieldValue(x)) && Truthy(FieldValue(y)) then WithLatency else BadRequest
  {
  }

  /** A well-formed `rtp-info` is accepted, and both numbers can be read back. */
  lemma RecordAcceptsRtpInfo(initSeq: nat, initRtpTime: nat, req: Request)
    requires "rtp-info" in req.headers && req.headers["rtp-info"] == RtpInfo(initSeq, initRtpTime)
    ensures RecordAnswerFor(req) == WithLatency
    ensures var params := Split(req.headers["rtp-info"], ";");
      PortField(params[0]) == Some(initSeq) && PortField(params[1]) == Some(initRtpTime)
  {
    var x, y := "seq" + "=" + DecimalString(initSeq), "rtptime" + "=" + DecimalString(initRtpTime);
    RtpInfoPieces(initSeq, initRtpTime);
    FieldValueOf("seq", initSeq);
    FieldValueOf("rtptime", initRtpTime);
    AnswerOfPieces(req, x, y);
    PortFieldOf("seq", initSeq);
    PortFieldOf("rtptime", initRtpTime);
  }

  /** The parameter `seq=` has an empty value. */
  lemma EmptySeqField()
    ensures SemicolonFree("seq=") && FieldValue("seq=") == Some("")
  {
    assert "seq=" == "seq" + "=" + "";
    SplitAfterFree("seq", "=", "");
    SplitFree("", "=");
  }

  lemma EmptySeqShape(b: string)
    ensures "seq=;rtptime=" + b == "seq=" + ";" + ("rtptime=" + b)
  {
  }

  /** An `rtp-info` with an empty sequence number is answered 400. */
  lemma RecordRejectsEmptySeq(initRtpTime: nat, req: Request)
    requires "rtp-info" in req.headers && req.headers["rtp-info"] == "seq=;rtptime=" + DecimalString(initRtpTime)
    ensures RecordAnswerFor(req) == BadRequest
  {
    var b := DecimalString(initRtpTime);
    NoSemicolon("rtptime=", initRtpTime);
    EmptySeqShape(b);
    EmptySeqField();
    SplitTwo("seq=", "rtptime=" + b);
    AnswerOfPieces(req, "seq=", "rtptime=" + b);
  }

  /** `flush`: a fixed RTP time. */
  method Flush(res: Response) returns (res': Response)
    ensures res' == Send(SetHeader(res, "rtp-info", "rtptime=1147914212"))
  {
    res' := SetHeader(res, "rtp-info", "rtptime=1147914212");
    res' := Send(res');
  }

  /** `teardown`: stop the RTP server and answer; the client stays connected. */
  method Teardown(server: RtspServer, res: Response) returns (res': Response)
    requires server.Valid()
    modifies server.rtp
    ensures server.Valid() && unchanged(server) && server.rtp.Stopped()
    ensures res' == Send(res)
  {
    server.rtp.Stop();
    res' := Send(res);
  }

  /** `getParameter`: a plain acknowledgement. */
  method GetParameter(res: Response) returns (res': Response)
    ensures res' == Send(res)
  {
    res' := Send(res);
  }

  // ================================================================ SET_PARAMETER

  /** The metadata record `setParameter` stores for the parsed DMAP fields. */
  function DmapMetadata(m: Dmap.Metadata): (r: RtspMetadata)
    ensures r.Keys == m.Keys && forall k :: k in m ==> r[k] == DmapField(m[k])
  {
    map k | k in m :: DmapField(m[k])
  }

  /** SET_PARAMETER with a DMAP body that a sender wrote record by record after its 8-octet
      header stores a field `k` exactly when some record sets it, and stores the value of
      the last record that does. */
  lemma DmapBodyFields(header: seq<byte>, rs: seq<Dmap.Record>, k: string)
    requires |header| == 8 && forall i :: 0 <= i < |rs| ==> Dmap.WellFormed(rs[i])
    requires Dmap.Interpret(rs, map[]).Some?
    ensures var parsed := Dmap.WalkFrom(header + Dmap.EncodeAll(rs), 8, map[]);
      parsed.Some?
      && (k in DmapMetadata(parsed.value) <==> exists i :: 0 <= i < |rs| && Dmap.Sets(rs[i], k))
      && forall i :: 0 <= i < |rs| && Dmap.Sets(rs[i], k) && (forall j :: i < j < |rs| ==> !Dmap.Sets(rs[j], k)) ==>
           Dmap.Decode(Dmap.TypeOf(k).value, rs[i].payload).Some?
           && DmapMetadata(parsed.value)[k] == DmapField(Dmap.Decode(Dmap.TypeOf(k).value, rs[i].payload).value)
  {
    Dmap.WalkReadsRecords(header, rs, map[]);
    Dmap.InterpretLastWins(rs, map[], k);
  }

  /** `req.content.toString().split(': ')`, with the two parts it reads; None where
      `data[1]` is `undefined` and its `trim()` throws. */
  function TextParameter(text: string): Option<(string, string)> {
    var data := Split(text, ": ");
    if |data| < 2 then None else Some((data[0], data[1]))
  }

  /** The header compared, `undefined` when absent. */
  function ContentType(req: Request): Option<string> {
    if "content-type" in req.headers then Some(req.headers["content-type"]) else None
  }

  /** The two ways `setParameter` throws: DMAP that does not parse, and a text without
      ": ", whose `data[1].trim()` reads `undefined`. */
  predicate ParameterThrows(prims: Primitives, req: Request) {
    || (ContentType(req) == Some("application/x-dmap-tagged") && Dmap.WalkFrom(req.content, 8, map[]).None?)
    || (ContentType(req) == Some("text/parameters") && TextParameter(prims.utf8Decode(req.content)).None?)
  }

  /** What `setParameter` does: DMAP metadata replaces the whole record, a JPEG sets the
      artwork, `volume: ` and `progress: ` texts set those fields, each with its
      notification; other content changes nothing. It throws, before anything changes,
      exactly as `ParameterThrows` says; every other request is answered with one send. */
  twostate predicate ParameterSet(prims: Primitives, server: RtspServer, req: Request, res: Response,
                                  res': Response, outcome: Outcome)
    reads server
  {
    && (ContentType(req) == Some("application/x-dmap-tagged") ==>
         var parsed := Dmap.WalkFrom(req.content, 8, map[]);
         && (parsed.None? ==> outcome.Threw? && unchanged(server))
         && (parsed.Some? ==> server.metadata == DmapMetadata(parsed.value)
                              && server.notifications == old(server.notifications) + [MetadataChange(server.metadata)]))
    && (ContentType(req) == Some("image/jpeg") ==>
         server.metadata == old(server.metadata)["artwork" := Artwork(req.content)]
         && server.notifications == old(server.notifications) + [ArtworkChange(req.content)])
    && (ContentType(req) == Some("text/parameters") ==>
         match TextParameter(prims.utf8Decode(req.content))
         case None => outcome.Threw? && unchanged(server)
         case Some((name, value)) =>
           && (name == "volume" ==> server.metadata == old(server.metadata)["volume" := Volume(value)]
                                    && server.notifications == old(server.notifications) + [VolumeChange(value)])
           && (name == "progress" ==> server.metadata == old(server.metadata)["progress" := Progress(value)]
                                      && server.notifications == old(server.notifications) + [ProgressChange(value)])
           && (name != "volume" && name != "progress" ==> unchanged(server)))
    && (ContentType(req) !in {Some("application/x-dmap-tagged"), Some("image/jpeg"), Some("text/parameters")} ==>
         unchanged(server))
    && (outcome.Threw? <==> ParameterThrows(prims, req))
    && (outcome.Completed? ==> res' == Send(res))
    && (outcome.Threw? ==> res' == res)
  }

  /** `setParameter`. */
  method SetParameter(prims: Primitives, server: RtspServer, req: Request, res: Response)
    returns (res': Response, outcome: Outcome)
    modifies server`metadata, server`notifications
    ensures ParameterSet(prims, server, req, res, res', outcome)
  {
    var contentType := ContentType(req);
    if contentType == Some("application/x-dmap-tagged") {
      var dmapData := Dmap.ParseDmap(req.content);
      if dmapData.None? {
        return res, Threw("RangeError: Index out of range");
      }
      server.metadata := DmapMetadata(dmapData.value);
      server.notifications := server.notifications + [MetadataChange(server.metadata)];
    } else if contentType == Some("image/jpeg") {
      server.metadata := server.metadata["artwork" := Artwork(req.content)];
      server.notifications := server.notifications + [ArtworkChange(req.content)];
    } else if contentType == Some("text/parameters") {
      var data := TextParameter(prims.utf8Decode(req.content));
      if data.None? {
        return res, Threw("TypeError: Cannot read property 'trim' of undefined");
      }
      var (name, value) := data.value;
      if name == "volume" {
        server.metadata := server.metadata["volume" := Volume(value)];
        server.notifications := server.notifications + [VolumeChange(value)];
      } else if name == "progress" {
        server.metadata := server.metadata["progress" := Progress(value)];
        server.notifications := server.notifications + [ProgressChange(value)];
      }
    }
    return Send(res), Completed;
  }

  /** A `progress: ` line whose value has no colon sets exactly that progress. */
  lemma ProgressText(value: string)
    requires forall i :: 0 <= i < |value| ==> value[i] != ':'
    ensures TextParameter("progress" + ": " + value) == Some(("progress", value))
  {
    SplitAfterFree("progress", ": ", value);
    SplitFree(value, ": ");
  }
}
