# nodetunes — a Dafny model of the AirPlay (RAOP) receiver core

nodetunes lets a Node.js process act as an AirPlay speaker. This model covers the parts that
make that work:

- **Control channel.** An RTSP server accepts one client at a time. It answers the client's
  `OPTIONS` challenge with an RSA signature. It negotiates codec, AES key and ports through
  `ANNOUNCE` (SDP) and `SETUP`. It optionally demands HTTP digest authentication. It takes
  metadata, artwork, volume and progress through `SET_PARAMETER`.
- **Audio path.** Three UDP sockets carry the audio. Each audio packet is decrypted in place
  (AES-128-CBC over whole blocks; the tail is left in the clear). The payload goes into a
  readable stream that holds packets back in a priority queue, keyed by sequence number,
  while its consumer is not reading. 16-bit PCM is byte-swapped on its way out.
- **Timeout.** A timer closes a client whose control stream falls silent.

## Modules

Each module follows a file of the repository or one part of a file. `Reorder` and `Session` instead state a concern that several files share:

| module | file(s) |
|---|---|
| `Sdp` | `parseSdp` of src/helper.ts |
| `Dmap` | `parseDmap` of src/helper.ts |
| `Helper` | Apple challenge, RFC 2617 digest and decoder options of src/helper.ts |
| `AudioDecrypt` | `decryptAudioData` of src/helper.ts |
| `Reorder` | the priority queue's order |
| `BaseStream` | src/streams/base.ts |
| `LegacyBaseStream` | lib/streams/base.js |
| `PcmStream` | lib/streams/pcm.ts and lib/streams/pcm.js |
| `Rtp` | lib/rtp.ts |
| `Session` | the socket references of the two RTSP servers |
| `Rtsp` | src/rtsp.ts |
| `LegacyRtsp` | lib/rtsp.js |
| `RtspMethods` | the handlers of src/rtspmethods.ts |
| `RtspDispatch` | the `message` handler of src/rtsp.ts |

Three modules support the others:

- `Wrappers` holds the option and outcome types.
- `Bytes` holds octets, big-endian reads, and JavaScript `%` and `<<`.
- `Strings` holds JavaScript `indexOf`, `split`, `replace` and `parseInt` on strings.

State the source changes in place is modelled as classes:

- Server state: `Rtsp.RtspServer`, `LegacyRtsp.RtspServer` and `Rtp.RtpServer`.
- Streams: `BaseStream.BaseDecoderStream` and `LegacyBaseStream.BaseDecoderStream`.
- The `nonce` module variable: `RtspMethods.NonceCell`.

The loops become methods on arrays and sequences, each proved against a function:

- `DecryptAudioData` against `DecryptedPacket`.
- `Transform` against `Swapped`.
- `ParseSdp` against `Fold`.
- `ParseDmap` against `WalkFrom`.
- the `_read` loop (`Drain`) against the queue's order.

What the server tells the host, and what it does to sockets, is recorded as ghost logs:

- `notifications` lists the `external.emit` events.
- `socketActions` lists `end` and `destroy`.
- a stream's `emitted` and `verdicts` list what `push` received and what it answered.

Responses are values that list every `send`.

The cryptographic and encoding primitives are total functions fixed in a
`Foreign.Primitives` value:

- MD5 as hex;
- RSA private-key encryption;
- RSA-OAEP decryption, which may fail;
- base64 and hex;
- UTF-8 decoding;
- AES-128 block decryption.

The model states what the code does with their results, not what they compute.

Two observations proved in the model:

- `parseDmap` combines 8-octet integers with a 32-bit `<<` rather than a 64-bit shift, and the
  model computes it that way (`Dmap.MperIsNotJoin`).
- A codec can pass the `415` check yet have no decoder. Examples are `96 L16/48000/2` and any
  text that merely contains `L16`. `announceParse` then throws instead of answering
  (`RtspMethods.SupportedWithoutDecoder`).

## Model

| member | source | states |
|---|---|---|
| `Bytes.ReadUInt16BE` | lib/rtp.ts:41 | a big-endian 16-bit read is below 2^16 |
| `Bytes.ReadUInt32BE` | src/helper.ts:48 | a big-endian 32-bit read is below 2^32 |
| `Bytes.ReadEncode16` | lib/rtp.ts:41 | reading back a 16-bit big-endian encoding at any offset gives the number |
| `Bytes.ReadEncode32` | src/helper.ts:48 | reading back a 32-bit big-endian encoding at any offset gives the number |
| `Bytes.ToInt32` | src/helper.ts:60 | JavaScript's 32-bit signed reinterpretation of `<<`: in range and congruent modulo 2^32 |
| `Bytes.JsRem` | src/helper.ts:128 | `%` truncating toward zero: strictly between minus and plus the divisor, congruent to the dividend modulo the divisor, never negative for a non-negative dividend and never positive for a negative one |
| `Bytes.JsRemUnique` | src/helper.ts:128 | those three properties single out the remainder: any value with them is `JsRem` |
| `Strings.IndexFrom` | src/rtspmethods.ts:50 | `indexOf`: the first occurrence at or after the start, or -1 exactly when none exists |
| `Strings.SplitJoin` | src/helper.ts:9 | `split` with a string separator loses nothing: joining the pieces back gives the input |
| `Strings.SplitPiecesFree` | src/helper.ts:9 | no piece of a `split` contains the separator |
| `Strings.SplitJoinFree` | src/rtspmethods.ts:160 | splitting the join of separator-free pieces gives the pieces back |
| `Strings.Remove` | src/rtspmethods.ts:163 | `replace(/["]/g, '')` leaves no quote, never lengthens, and changes nothing in quote-free text |
| `Strings.RemoveConcat` | src/rtspmethods.ts:163 | removing quotes distributes over concatenation |
| `Strings.DecimalString` | src/rtspmethods.ts:125 | a number's decimal text is a non-empty run of digits |
| `Strings.ParseDecimal` | src/helper.ts:111 | `parseInt(s, 10)` of a number's decimal text gives the number back |
| `Sdp.SplitLineSimple` | src/helper.ts:14-15 | a `k=v` line splits into the key before the first `=` and the rest, however many `=` follow |
| `Sdp.FoldGroups` | src/helper.ts:8-23 | after the fold, an `a`/`p`/`b` key holds every value given for it, in order; any other key holds its last value |
| `Sdp.FoldShaped` | src/helper.ts:16-23 | every dictionary the fold builds holds a list under `a`, `p` and `b` and a single value under any other key |
| `Sdp.AddLine` | src/helper.ts:14-24 | one pass of the loop adds the line as the fold's step says and keeps lists under list keys |
| `Sdp.AddLines` | src/helper.ts:12-25 | the loop over the lines computes the fold |
| `Sdp.ParseSdp` | src/helper.ts:7-28 | the dictionary is the fold of the CRLF-split lines |
| `Dmap.WalkStep` | src/helper.ts:46-64 | an item that is absorbed moves the walk to the next item, 8 + length octets on |
| `Dmap.WalkFails` | src/helper.ts:50-60 | an item whose read runs past its data makes the whole parse throw |
| `Dmap.ReadRecord` | src/helper.ts:47-62 | one pass of the loop: a zero-length item or an unknown tag is skipped, any other is decoded by its type and stored under its name |
| `Dmap.ParseDmap` | src/helper.ts:43-68 | the loop from octet 8 computes the walk |
| `Dmap.RecordAt` | src/helper.ts:47-50 | an encoded item is read back at its offset with its tag, length and data |
| `Dmap.InterpretLastWins` | src/helper.ts:46-64 | after interpreting items a name is present exactly when it was before or some item sets it, and then holds the decoding of the last item that sets it; a name no item sets keeps its value |
| `Dmap.WalkReadsRecords` | src/helper.ts:46-65 | walking a sequence of well-formed encoded items gives the map that interprets them, later names overriding earlier ones |
| `Dmap.DecodeIntegers` | src/helper.ts:53-58 | 1-, 2- and 4-octet items decode to the big-endian number they encode |
| `Dmap.MperIsNotJoin` | src/helper.ts:59-60 | the 8-octet value is not the 64-bit number: halves (1, 0) read as 256 rather than 2^32, and (2^23, 0) as -2^31 |
| `Helper.ZeroPadded` | src/helper.ts:82-90 | the challenge is the concatenation followed by zeros up to 32 octets, and is unchanged when already that long |
| `Helper.BuildChallenge` | src/helper.ts:82-90 | the padding loop produces the zero-padded concatenation of challenge, IP and MAC |
| `Helper.GenerateAppleResponse` | src/helper.ts:77-95 | the response is base64 of the RSA private-key encryption of the padded challenge |
| `Helper.GenerateRfc2617Response` | src/helper.ts:102-107 | the digest is MD5(HA1 ":" nonce ":" HA2) with HA1 = MD5(user:realm:password) and HA2 = MD5(method:uri) |
| `Helper.GetDecoderOptions` | src/helper.ts:109-123 | options exist exactly when an `fmtp` line was given |
| `Helper.FieldsInOrder` | src/helper.ts:111-121 | the eleven fields, from `frameLength` to `sampleRate`, come in that order |
| `Helper.OptionsInOrder` | src/helper.ts:109-123 | field k is `parseInt` of entry k+1, `NaN` (None) where absent or not numeric |
| `Helper.DecimalOptions` | src/helper.ts:110-122 | for an `fmtp` line of decimal numbers every option field is the number written there |
| `AudioDecrypt.XorBlockCancel` | src/helper.ts:137 | XOR with the chaining block twice gives the block back |
| `AudioDecrypt.CbcDecryptCons` | src/helper.ts:132-138 | the first ciphertext block is the chaining value for the rest |
| `AudioDecrypt.CbcRoundTrip` | src/helper.ts:132-138 | CBC decryption inverts CBC encryption under the same key and IV |
| `AudioDecrypt.CbcReEncrypt` | src/helper.ts:132-138 | CBC encryption inverts CBC decryption, so decryption loses nothing |
| `AudioDecrypt.DecryptedPacket` | src/helper.ts:125-141 | the decrypted packet keeps the packet's length |
| `AudioDecrypt.PassThrough` | src/helper.ts:128-138 | the header and the trailing partial block stay in the clear |
| `AudioDecrypt.WholeBlocks` | src/helper.ts:128-129 | the whole blocks end inside the packet, the remainder of the length after the header before its end |
| `AudioDecrypt.BlockDecrypted` | src/helper.ts:135-138 | every whole 16-octet block after the header becomes its CBC decryption, chained from the IV |
| `AudioDecrypt.CbcBlockAt` | src/helper.ts:135-138 | block j of the CBC decryption of the packet's blocks is D(K, C_j) XOR C_{j-1} |
| `AudioDecrypt.CbcBlockOfPacket` | src/helper.ts:135-138 | block j of the decrypted packet is block j of the CBC decryption of its whole blocks |
| `AudioDecrypt.PacketIsCbc` | src/helper.ts:125-141 | the decrypted packet's whole blocks are the CBC decryption, from the IV, of the packet's whole blocks |
| `AudioDecrypt.PacketRoundTrip` | src/helper.ts:125-141 | a packet whose blocks the sender CBC-encrypted with the same key and IV decrypts to the sender's plaintext |
| `AudioDecrypt.EndOfEncodedData` | src/helper.ts:128-129 | the whole blocks end where the truncating remainder puts them, even for a packet shorter than the header |
| `AudioDecrypt.DecryptBlockAt` | src/helper.ts:136-137 | one loop pass copies out the 16 octets at `i`, writes back their decipherment and changes no other octet |
| `AudioDecrypt.NextBlock` | src/helper.ts:135-138 | the block read in a pass is still ciphertext, and after the pass one more block is deciphered |
| `AudioDecrypt.FromBlocks` | src/helper.ts:135-140 | once every whole block is deciphered, the buffer is the decrypted packet |
| `AudioDecrypt.DecryptAudioData` | src/helper.ts:125-141 | decrypts the array in place to the decrypted packet and returns the part after the header; fails for a key or IV that is not 16 octets |
| `Reorder.Enqueue` | src/streams/base.ts:17-18 | inserting into the queue adds exactly that packet: one more element, the same multiset plus the packet |
| `Reorder.EnqueueBound` | src/streams/base.ts:17-18 | inserting keeps every sequence number at or above a bound both sides meet |
| `Reorder.EnqueueAscending` | src/streams/base.ts:17-18 | inserting into an ascending queue keeps it ascending |
| `Reorder.HeadIsLeast` | src/streams/base.ts:17-18 | the queue's head has the least sequence number, which `deq` takes |
| `Reorder.SplitAscending` | src/streams/base.ts:17-18 | both parts of an ascending queue are ascending, the front before the back |
| `Reorder.TakeFront` | src/streams/base.ts:41-43 | what draining took from an ascending queue came out ascending, before what is left, and nothing was lost |
| `Reorder.QueueOrder` | src/streams/base.ts:17-18 | packets 3, 1, 2 enqueued come out as 1, 2, 3 |
| `Reorder.NoWrapAround` | src/streams/base.ts:17-18 | sequence number 0 comes out before 65535: the comparator ignores 16-bit wrap-around |
| `BaseStream.BaseDecoderStream.constructor` | src/streams/base.ts:15-19 | starts flowing with an empty queue and nothing pushed |
| `BaseStream.BaseDecoderStream.Push` | src/streams/base.ts:27 | `push` hands the chunk to the readable side and records the consumer's answer |
| `BaseStream.BaseDecoderStream.PushData` | src/streams/base.ts:25-36 | while flowing, pushes and stops flowing on a false answer, returning it; otherwise queues the packet and returns false |
| `BaseStream.BaseDecoderStream.Add` | src/streams/base.ts:21-23 | every added packet is either pushed, with one answer appended to the log, or queued, with the log untouched; the queue stays ordered |
| `BaseStream.BaseDecoderStream.Dequeue` | src/streams/base.ts:42 | `deq` removes the least packet |
| `BaseStream.BaseDecoderStream.Drain` | src/streams/base.ts:41-43 | pushes queued packets in ascending order until the queue empties or an answer is false |
| `BaseStream.BaseDecoderStream.Read` | src/streams/base.ts:38-44 | `_read` resumes flowing, drains in order, and stays flowing unless the last push was refused; the pushes and answers logged so far are kept |
| `LegacyBaseStream.Truthy` | lib/streams/base.js:35 | only `true` counts as success: `undefined` from a queued push does not |
| `LegacyBaseStream.BaseDecoderStream.constructor` | lib/streams/base.js:8-13 | starts flowing with an empty queue and nothing pushed |
| `LegacyBaseStream.BaseDecoderStream.Push` | lib/streams/base.js:21 | `push` hands the chunk to the readable side and records the consumer's answer |
| `LegacyBaseStream.BaseDecoderStream.PushData` | lib/streams/base.js:19-29 | as in src, but a queued packet returns `undefined` |
| `LegacyBaseStream.BaseDecoderStream.Add` | lib/streams/base.js:15-17 | every added packet is either pushed, with one answer appended to the log, or queued, with the log untouched; the queue stays ordered |
| `LegacyBaseStream.BaseDecoderStream.Dequeue` | lib/streams/base.js:35 | `deq` removes the least packet |
| `LegacyBaseStream.BaseDecoderStream.Drain` | lib/streams/base.js:34-36 | pushes queued packets in ascending order until empty or an answer is not truthy |
| `LegacyBaseStream.BaseDecoderStream.Read` | lib/streams/base.js:31-37 | `_read` resumes flowing and drains in order; the pushes and answers logged so far are kept |
| `PcmStream.Swapped` | lib/streams/pcm.ts:5-15 | the output chunk has the input's length |
| `PcmStream.SwappedIsSwapPairs` | lib/streams/pcm.js:11-14 | the index-wise output equals swapping pair by pair from the front, with a lone last octet becoming 0 |
| `PcmStream.PairSwapped` | lib/streams/pcm.ts:9-12 | octets 2i and 2i+1 trade places |
| `PcmStream.SwapInvolution` | lib/streams/pcm.ts:9-12 | on whole 16-bit samples, swapping twice gives the input back |
| `PcmStream.SwapOddLength` | lib/streams/pcm.js:11-14 | on an odd-length chunk the last octet becomes 0, so swapping twice loses only it |
| `PcmStream.Transform` | lib/streams/pcm.ts:5-15 | fills a fresh buffer of the same length with the swapped chunk |
| `Rtp.SequenceNumber` | lib/rtp.ts:41 | the sequence number is a 16-bit value |
| `Rtp.SequenceNumberRoundTrip` | lib/rtp.ts:41 | the number a sender writes at octets 2-3 is the one read |
| `Rtp.RtpServer.constructor` | lib/rtp.ts:19-22 | nothing started, no socket and no timer |
| `Rtp.RtpServer.Start` | lib/rtp.ts:24-38 | sockets of the session's family bound to the three ports, counter -1, no interval held; an earlier interval stays live |
| `Rtp.RtpServer.OnAudio` | lib/rtp.ts:40-48 | throws for a packet under 4 octets or a missing or bad key or IV; otherwise decrypts in place and adds the payload with its sequence number to the output stream, if there is one; a throw leaves the packet as it was |
| `Rtp.RtpServer.OnControl` | lib/rtp.ts:50-67 | the first datagram after start, with a timeout configured, starts a new interval; every datagram resets the counter to 0 |
| `Rtp.RtpServer.Tick` | lib/rtp.ts:55-61 | counts a second and times out once the count reaches the timeout |
| `Rtp.RtpServer.Stop` | lib/rtp.ts:74-90 | does nothing before start; otherwise closes the sockets and clears the held interval, so that it is no longer live, while every other interval and field stays as it was; stopping twice is harmless |
| `Session.OnConnect` | src/rtsp.ts:51-58 | a connection is refused, changing nothing, exactly when one is being handled and no client is connected; otherwise it becomes `socket` and `handling` |
| `Session.ClearHandling` | src/rtsp.ts:101-103 | `handling` is cleared exactly when the closing socket is the one handled |
| `Session.OnCloseAsWritten` | src/rtsp.ts:98-115 | the reset runs when the most recently accepted socket is the client, whichever socket closed |
| `Session.OnClose` | lib/rtsp.js:80-100 | the reset runs exactly when the closing socket is the client |
| `Session.StepSound` | lib/rtsp.js:35-100 | with lib's close rule every connect, announce and close keeps the references pointing at open sockets |
| `Session.RunSound` | lib/rtsp.js:35-100 | … over every run of events |
| `Session.StaleClient` | src/rtsp.ts:106 | on connect 1, announce 1, connect 2, close 1, src keeps the closed client 1 connected while lib ends the session |
| `Session.StaleForever` | src/rtsp.ts:106-113 | once stale, the client is never cleared by src's rule, so every later ANNOUNCE gets 453 |
| `Rtsp.SetHeader` | src/rtspmethods.ts:196 | sets one header, leaving status and sends alone |
| `Rtsp.Send` | src/rtspmethods.ts:200 | records one send with the current status and headers |
| `Rtsp.SendStatus` | src/rtspmethods.ts:193-194 | sets the status and sends |
| `Rtsp.Answering` | src/rtsp.ts:71-72 | every response starts at 200 with `Server: AirTunes/105.1` and `CSeq` echoed exactly when the request had one |
| `Rtsp.RtspServer.constructor` | src/rtsp.ts:40-49 | the options are stored, a fresh unstarted RTP server made, no connection, no audio parameters, no metadata |
| `Rtsp.RtspServer.ConnectHandler` | src/rtsp.ts:51-90 | accepts or ends the socket as `Session.OnConnect` says, and logs the end |
| `Rtsp.RtspServer.TimeoutHandler` | src/rtsp.ts:92-96 | destroys the connected client's socket, if there is one |
| `Rtsp.RtspServer.DisconnectHandler` | src/rtsp.ts:98-115 | the references follow `Session.OnCloseAsWritten`; the reset drops the output stream, notifies clientDisconnected once and stops RTP (sockets closed, interval cleared, as `Rtp.RtpServer.Stop` says); without a reset the output stream, notifications and RTP server are untouched; the audio parameters, ports, IPv6 flag, decoder, metadata and socket log never change |
| `Rtsp.RtspServer.Stop` | src/rtsp.ts:117-119 | stops the RTP server as `Rtp.RtpServer.Stop` says (sockets closed, interval cleared) and changes nothing else |
| `LegacyRtsp.RtspServer.constructor` | lib/rtsp.js:14-33 | as in src |
| `LegacyRtsp.RtspServer.ConnectHandler` | lib/rtsp.js:35-72 | as in src |
| `LegacyRtsp.RtspServer.OnMessage` | lib/rtsp.js:53-69 | a known method is answered from `Answering`; any other gets 400 and the socket is ended |
| `LegacyRtsp.RtspServer.TimeoutHandler` | lib/rtsp.js:74-78 | destroys the connected client's socket, if there is one |
| `LegacyRtsp.RtspServer.DisconnectHandler` | lib/rtsp.js:80-100 | the references follow `Session.OnClose`; the reset runs exactly when the closing socket is the client, and then clears it, drops the output stream, notifies clientDisconnected once and stops RTP as `Rtp.RtpServer.Stop` says; otherwise the output stream, notifications and RTP server are untouched; no other field changes |
| `LegacyRtsp.RtspServer.Stop` | lib/rtsp.js:102-104 | stops the RTP server as `Rtp.RtpServer.Stop` says and changes nothing else |
| `RtspMethods.NonceCell.constructor` | src/rtspmethods.ts:134 | the nonce starts empty |
| `RtspMethods.Options` | src/rtspmethods.ts:20-43 | lists the public methods; with an `apple-challenge`, also sets `apple-response` to `AppleResponse`: base64 of the RSA signature of the decoded challenge, local address and MAC octets, zero-padded to 32 octets |
| `RtspMethods.DecoderStream` | src/rtspmethods.ts:15-18 | a decoder exists exactly for `96 AppleLossless` (ALAC) and `96 L16/44100/2` (PCM), with the given options |
| `RtspMethods.DecodableIsSupported` | src/rtspmethods.ts:66 | every codec with a decoder passes the `415` check |
| `RtspMethods.SupportedWithoutDecoder` | src/rtspmethods.ts:66 | `96 L16/48000/2` passes the `415` check but has no decoder |
| `RtspMethods.SplitAttribute` | src/rtspmethods.ts:50-52 | an attribute splits at its first `:` into a colon-free key and the rest, and recombines; without `:` the key is empty |
| `RtspMethods.AttributeEffect` | src/rtspmethods.ts:54-78 | one attribute is accepted exactly when the `a=` line has a value and, for `rsaaeskey`, the key decrypts; `rtpmap` alone sets the codec and `fmtp` alone the options split on spaces; an unsupported codec adds one send and one notification |
| `RtspMethods.ApplyAllSnoc` | src/rtspmethods.ts:49-80 | the loop over one more attribute is the loop so far followed by that attribute, unless it already threw |
| `RtspMethods.ApplyAllCompletes` | src/rtspmethods.ts:49-80 | the attribute loop completes exactly when every attribute is accepted (a value on every `a=` line and a decryptable `rsaaeskey`); an unsupported codec is answered 415 and does not stop the loop |
| `RtspMethods.ApplyAllLastWins` | src/rtspmethods.ts:62-77 | the codec and options are those of the last `rtpmap` and `fmtp` attributes |
| `RtspMethods.ApplyAllRefusals` | src/rtspmethods.ts:66-72 | each unsupported codec adds one 415 send and one error notification, and the loop goes on |
| `RtspMethods.ApplyAllStep` | src/rtspmethods.ts:49-80 | the loop over the first i + 1 attributes, when the first i went through, is one more attribute's step |
| `RtspMethods.ThrownStays` | src/rtspmethods.ts:49-80 | once an attribute throws, later attributes change nothing |
| `RtspMethods.ApplyAttributes` | src/rtspmethods.ts:49-80 | the loop sets the audio fields, sends and notifies as the fold says |
| `RtspMethods.ApplyLine` | src/rtspmethods.ts:50-78 | one loop pass changes the audio fields, response and notifications as the attribute's step says, and nothing when it throws |
| `RtspMethods.AnnounceParse` | src/rtspmethods.ts:45-105 | throws without `a=` lines, on a bad attribute, or when the negotiated codec has no decoder (no `rtpmap`, or a codec such as `96 L16/48000/2`); otherwise sets the client name and IPv6 flag, connects the client with a fresh stream, and answers |
| `RtspMethods.ApplyAttributesAndComplete` | src/rtspmethods.ts:49-105 | the attribute loop followed by the completion |
| `RtspMethods.AnnounceComplete` | src/rtspmethods.ts:82-105 | `i=` becomes the client name with a notification; a `c=` with `IP6` sets IPv6, never clearing it |
| `RtspMethods.ConnectClient` | src/rtspmethods.ts:95-104 | throws without a decoder; otherwise the requesting socket becomes the client, with a fresh output stream, clientConnected notified and the response sent |
| `RtspMethods.Route` | src/rtspmethods.ts:137-182 | 453 while a client is connected; otherwise challenge, verify, refuse or parse, depending on the password, `Authorization` and a matching digest |
| `RtspMethods.Announce` | src/rtspmethods.ts:137-182 | answers 453, or a 401 with a fresh nonce, or parses; a refused digest keeps the nonce and changes no state |
| `RtspMethods.RemoveQuotes` | src/rtspmethods.ts:163 | stripping quotes from `k="v"` gives `k=v` for quote-free text |
| `RtspMethods.EntryOfParam` | src/rtspmethods.ts:163-164 | one parameter parses back to its name and value |
| `RtspMethods.AuthMapOfParams` | src/rtspmethods.ts:160-165 | the comma-separated parameters parse to their map |
| `RtspMethods.ParamsHaveNoComma` | src/rtspmethods.ts:160 | the parameters of quote- and comma-free pairs hold no comma, so `split(/, /)` recovers them |
| `RtspMethods.AuthorizationRoundTrip` | src/rtspmethods.ts:158-165 | the `Digest` header an iTunes client builds parses back to its fields |
| `RtspMethods.DigestAccepted` | src/rtspmethods.ts:167-173 | that header is accepted exactly when its response equals the RFC 2617 digest over the server's password and nonce |
| `RtspMethods.TransportPieces` | src/rtspmethods.ts:125 | the `Transport` header splits on `;` into its fixed parts and the three port fields |
| `RtspMethods.TransportRoundTrip` | src/rtspmethods.ts:125 | a client reading the header's port fields gets the three ports back |
| `RtspMethods.AnswerSetup` | src/rtspmethods.ts:125-128 | sets `transport` from the three ports, `session` 1 and `audio-jack-status` connected, then sends |
| `RtspMethods.Setup` | src/rtspmethods.ts:108-131 | picks three ports in 5000-9999, starts RTP on them, and sends the transport, session and jack headers |
| `RtspMethods.RecordAnswerFor` | src/rtspmethods.ts:184-198 | no `RTP-Info` is acknowledged; a missing `;` throws; an empty `seq` or `rtptime` is 400 (sent twice); otherwise latency 0 |
| `RtspMethods.Record` | src/rtspmethods.ts:184-201 | answers as `RecordAnswerFor` says |
| `RtspMethods.AnswerOfPieces` | src/rtspmethods.ts:189-197 | with `rtp-info` split into two pieces, latency 0 exactly when both have a non-empty value after `=`, 400 otherwise |
| `RtspMethods.FieldValueOf` | src/rtspmethods.ts:190-191 | the value after `=` in `name=<decimal>` is the decimal text |
| `RtspMethods.RecordAcceptsRtpInfo` | src/rtspmethods.ts:189-197 | a well-formed `seq=…;rtptime=…` is answered with latency 0 |
| `RtspMethods.RecordRejectsEmptySeq` | src/rtspmethods.ts:190-194 | an empty `seq=` is answered 400 |
| `RtspMethods.Flush` | src/rtspmethods.ts:203-206 | answers with the fixed `rtp-info` |
| `RtspMethods.Teardown` | src/rtspmethods.ts:208-211 | stops RTP as `Rtp.RtpServer.Stop` says (sockets closed, interval cleared), leaves every field of the session, including `clientConnected`, alone, and sends a plain answer |
| `RtspMethods.GetParameter` | src/rtspmethods.ts:254-257 | answers 200 and changes nothing |
| `RtspMethods.DmapBodyFields` | src/rtspmethods.ts:218-220 | for a DMAP body of well-formed encoded items after its 8-octet header, the stored metadata has a field exactly when some item sets it, holding the decoding of the last such item |
| `RtspMethods.SetParameter` | src/rtspmethods.ts:214-252 | DMAP replaces the metadata; JPEG sets only the artwork; `volume` and `progress` text set their field; each notifies once; other content changes nothing; it throws, changing nothing and sending nothing, exactly for DMAP that does not parse or text without `: `, and every other request is answered with one send |
| `RtspMethods.ProgressText` | src/rtspmethods.ts:231-243 | `progress: a/b/c` stores `a/b/c` |
| `RtspDispatch.OnMessage` | src/rtsp.ts:69-87 | answers unknown methods with 400 and ends the socket, changing nothing else; others go to their handler from `Answering` and end nothing; OPTIONS, RECORD, FLUSH and GET_PARAMETER change neither the server, nor RTP, nor the nonce, so a challenged nonce survives them |
| `RtspDispatch.Handle` | src/rtspmethods.ts:272-283 | the exact OPTIONS answer (with `AppleResponse` for a challenge), the RECORD answer and throw as `RecordAnswerFor` says, and the fixed FLUSH and GET_PARAMETER answers |
| `RtspDispatch.OnSetup` | src/rtspmethods.ts:108-131 | SETUP from `Answering`: three ports in 5000-9999, RTP started on them in the server's family with counter -1; the session, audio, metadata, notifications and socket log unchanged |
| `RtspDispatch.OnTeardown` | src/rtspmethods.ts:208-211 | TEARDOWN from `Answering`: a plain answer, the server unchanged and RTP stopped as `Rtp.RtpServer.Stop` says |
| `RtspDispatch.OnSetParameter` | src/rtspmethods.ts:214-252 | SET_PARAMETER from `Answering`: metadata and notifications as `SetParameter` says, every other field unchanged; it throws exactly when `SetParameter` does, and every other request is answered with one send of `Answering(req)` |
| `RtspDispatch.HandleSession` | src/rtspmethods.ts:272-283 | ANNOUNCE as `Announce` says with RTP untouched; SETUP, TEARDOWN and SET_PARAMETER as their entries say, with the nonce untouched; no socket is ended |

## Left out

- Cryptography, base64, hex, UTF-8 and MD5 are parameters (`Foreign.Primitives`): the model states how their results are used, not what they compute.
- The private key file, `ipaddr` address parsing (the local address is passed as octets) and `Math.random` (a nondeterministic choice of port) are inputs.
- Sockets, timers and the `httplike` framing are ids, events and response values. The model does not capture:
  - TCP and UDP delivery;
  - the wire format of a response;
  - what a second `send` does on the wire.
- Event-emitter delivery is a log. An `error` event with no listener, which makes Node throw, is not modelled.
- What happens after a handler throws (an uncaught exception in the `message` callback) is not modelled: the outcome says `Threw` and the state is as it was at the throw.
- Objects used as dictionaries (the method table, `DECODER_STREAMS`, the authorization map, the DMAP type table) are finite maps. Names inherited from `Object.prototype`, such as `constructor`, are not looked up there.
- `Reorder.Enqueue`: the model places a packet after queued packets with the same sequence number. `priorityqueuejs` is a binary heap whose order among equal numbers is not modelled. `BaseStream.BaseDecoderStream.Dequeue` states only that a least packet comes out.
- Floating point is not modelled. The volume is kept as the text `parseFloat` reads. `Strings.ParseInt10` gives the exact integer, while `parseInt` rounds values beyond 2^53 to the nearest double; this reaches the `fmtp` decoder options through `Helper.OptionsInOrder`.
- The ALAC decoder, the output streams of lib/streams/output.ts, and the `NodeTunes` class of src/index.ts (mDNS advertising, option defaults) are not part of this model.
- Without a `CSeq` the response carries no `CSeq` header rather than one with value `undefined`.
- The `nonce` module variable is an object passed to `ANNOUNCE`.
- `start` called twice opens new sockets without closing the old ones. The model keeps only the latest sockets' state.
- lib/rtspmethods.js is not part of this model. The legacy server's dispatch is stated over its method names only.
- The timing socket's `message` handler does nothing and has no counterpart in the model.

## Findings

| source | as written | input that shows it | evidently intended | confidence | as-written member | corrected member |
|---|---|---|---|---|---|---|
| src/rtsp.ts:106 | the close handler resets the session when `this.socket` (the most recently accepted connection) is `clientConnected`, whichever socket closed | `Session.StaleTrace`: client 1 connects and announces, connection 2 is accepted, client 1 closes. Client 1 stays connected although closed, no clientDisconnected is emitted, and every later ANNOUNCE is answered 453 | reset when the closing socket is the connected client, as lib/rtsp.js:91 does | medium; not executed | `Session.OnCloseAsWritten`, `Session.StaleClient`, `Session.StaleForever` | `Session.OnClose`, `Session.RunSound`, used by `LegacyRtsp.RtspServer.DisconnectHandler` |
