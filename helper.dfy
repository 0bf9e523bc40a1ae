/** The small helpers of src/helper.ts besides the SDP and DMAP readers: the Apple
    challenge block, the RFC 2617 request digest and the ALAC decoder options. */
module Helper {
  import opened Wrappers
  import opened Bytes
  import opened Strings
  import opened Foreign

  // ------------------------------------------------------------ Apple challenge

  /** `u` zero-padded up to `width` octets; never truncated when it is longer. */
  function ZeroPadded(u: seq<byte>, width: nat): (r: seq<byte>)
    ensures |r| == if |u| < width then width else |u|
    ensures r[..|u|] == u
    ensures forall k :: |u| <= k < |r| ==> r[k] == 0
  {
    if |u| < width then u + seq(width - |u|, _ => 0) else u
  }

  /** The part of `generateAppleResponse` that builds the challenge block: challenge,
      IP address and MAC address, followed by a padding array filled one zero at a time. */
  method BuildChallenge(challenge: seq<byte>, ipAddr: seq<byte>, macAddr: seq<byte>) returns (full: seq<byte>)
    ensures full == ZeroPadded(challenge + ipAddr + macAddr, 32)
  {
    var unpadded := challenge + ipAddr + macAddr;
    var padding: seq<byte> := [];
    var i := |unpadded|;
    while i < 32
      invariant i == |unpadded| + |padding|
      invariant |unpadded| < 32 ==> i <= 32
      invariant |unpadded| >= 32 ==> padding == []
      invariant padding == seq(|padding|, _ => 0)
    {
      assert padding + [0] == seq(|padding| + 1, _ => 0);
      padding := padding + [0];
      i := i + 1;
    }
    full := unpadded + padding;
    assert |unpadded| >= 32 ==> full == unpadded;
    assert |unpadded| < 32 ==> padding == seq(32 - |unpadded|, _ => 0);
  }

  /** `generateAppleResponse`: the padded block, signed with the private key, in base64. */
  method GenerateAppleResponse(prims: Primitives, challenge: seq<byte>, ipAddr: seq<byte>, macAddr: seq<byte>)
    returns (response: string)
    ensures response == prims.base64Encode(prims.rsaPrivateEncrypt(ZeroPadded(challenge + ipAddr + macAddr, 32)))
  {
    var full := BuildChallenge(challenge, ipAddr, macAddr);
    response := prims.base64Encode(prims.rsaPrivateEncrypt(full));
  }

  // ------------------------------------------------------------ RFC 2617 digest

  /** H(data) and KD(secret, data) of section 3.2.1 of RFC 2617, with MD5 as the algorithm. */
  function H(md5Hex: string -> string, data: string): string {
    md5Hex(data)
  }

  function KD(md5Hex: string -> string, secret: string, data: string): string {
    H(md5Hex, secret + ":" + data)
  }

  /** A1 (section 3.2.2.2) and A2 (section 3.2.2.3) of RFC 2617 for the MD5 algorithm without qop. */
  function A1(username: string, realm: string, password: string): string {
    username + ":" + realm + ":" + password
  }

  function A2(requestMethod: string, uri: string): string {
    requestMethod + ":" + uri
  }

  /** `generateRfc2617Response`: the request-digest of section 3.2.2.1 of RFC 2617 for a
      request without a qop directive. */
  function GenerateRfc2617Response(md5Hex: string -> string, username: string, realm: string, password: string,
                                   nonce: string, uri: string, requestMethod: string): (r: string)
    ensures r == KD(md5Hex, H(md5Hex, A1(username, realm, password)), nonce + ":" + H(md5Hex, A2(requestMethod, uri)))
  {
    var ha1 := md5Hex(username + ":" + realm + ":" + password);
    var ha2 := md5Hex(requestMethod + ":" + uri);
    assert ha1 + ":" + nonce + ":" + ha2 == ha1 + ":" + (nonce + ":" + ha2);
    md5Hex(ha1 + ":" + nonce + ":" + ha2)
  }

  // ------------------------------------------------------------ decoder options

  /** The options object handed to the ALAC decoder; None stands for NaN, what
      `parseInt(undefined, 10)` and `parseInt` of a non-number give. */
  datatype DecoderOptions = DecoderOptions(
    frameLength: Option<int>, compatibleVersion: Option<int>, bitDepth: Option<int>,
    pb: Option<int>, mb: Option<int>, kb: Option<int>, channels: Option<int>,
    maxRun: Option<int>, maxFrameBytes: Option<int>, avgBitRate: Option<int>, sampleRate: Option<int>)

  /** The options in the order the `fmtp` attribute lists them, after its payload type. */
  function AsVector(o: DecoderOptions): (v: seq<Option<int>>)
    ensures |v| == 11
  {
    [o.frameLength, o.compatibleVersion, o.bitDepth, o.pb, o.mb, o.kb, o.channels,
     o.maxRun, o.maxFrameBytes, o.avgBitRate, o.sampleRate]
  }

  /** `parseInt(audioOptions[j], 10)`, where an index past the end reads `undefined`. */
  function OptionAt(opts: seq<string>, j: nat): Option<int> {
    if j < |opts| then ParseInt10(opts[j]) else None
  }

  /** The options object whose j-th field, counting from 1, is `field(j)`. */
  function OptionsOf(field: nat -> Option<int>): DecoderOptions {
    DecoderOptions(field(1), field(2), field(3), field(4), field(5), field(6), field(7), field(8),
                   field(9), field(10), field(11))
  }

  lemma FieldsInOrder(field: nat -> Option<int>)
    ensures forall k :: 0 <= k < 11 ==> AsVector(OptionsOf(field))[k] == field(k + 1)
  {
  }

  /** `getDecoderOptions`: no options (`{}`) when `audioOptions` is unset, else the eleven
      numbers after the payload type. */
  function GetDecoderOptions(audioOptions: Option<seq<string>>): (r: Option<DecoderOptions>)
    ensures r.Some? <==> audioOptions.Some?
  {
    match audioOptions
    case None => None
    case Some(opts) => Some(OptionsOf((j: nat) => OptionAt(opts, j)))
  }

  /** Decoder option k is `parseInt` of entry k + 1 of `audioOptions`, the first entry
      being the payload type. */
  lemma OptionsInOrder(opts: seq<string>)
    ensures forall k :: 0 <= k < 11 ==> AsVector(GetDecoderOptions(Some(opts)).value)[k] == OptionAt(opts, k + 1)
  {
    FieldsInOrder((j: nat) => OptionAt(opts, j));
  }

  /** Options written as decimal numbers are read back: the k-th decoder option is the
      (k+1)-th number, the first being the payload type; missing ones read as NaN. */
  lemma DecimalOptions(vals: seq<nat>)
    ensures var r := GetDecoderOptions(Some(seq(|vals|, i requires 0 <= i < |vals| => DecimalString(vals[i]))));
      r.Some? && forall k :: 0 <= k < 11 ==> AsVector(r.value)[k] == if k + 1 < |vals| then Some(vals[k + 1]) else None
  {
    var opts := seq(|vals|, i requires 0 <= i < |vals| => DecimalString(vals[i]));
    OptionsInOrder(opts);
    forall j | 1 <= j < |vals|
      ensures OptionAt(opts, j) == Some(vals[j])
    {
      ParseDecimal(vals[j]);
    }
  }
}
