/** `RtpServer` of lib/rtp.ts: the audio, control and timing UDP sockets of a session and
    the liveness counter driven by the control socket. Sockets and `setInterval` are
    replaced by explicit events: a datagram on the audio socket, a datagram on the control
    socket, one firing of an interval timer, and `stop`. */
module Rtp {
  import opened Wrappers
  import opened Bytes
  import opened Foreign
  import opened AudioDecrypt
  import BaseStream
  import Reorder

  /** The RTP sequence number of a packet: octets 2 and 3, big-endian (section 5.1 of RFC 3550). */
  function SequenceNumber(packet: seq<byte>): (n: nat)
    requires |packet| >= 4
    ensures n < 0x1_0000
  {
    ReadUInt16BE(packet, 2)
  }

  /** A sender's 16-bit sequence number is read back from any packet that carries it after
      the version/payload-type octets. */
  lemma SequenceNumberRoundTrip(lead: seq<byte>, n: nat, rest: seq<byte>)
    requires |lead| == 2 && n < 0x1_0000
    ensures SequenceNumber(lead + EncodeUInt16BE(n) + rest) == n
  {
    ReadEncode16(n, lead, rest);
  }

  class RtpServer {
    /** `rtspServer.controlTimeout`, fixed by the host's options; 0 stands for unset. */
    const controlTimeout: nat

    /** `baseServer` is set (start has run); the three sockets are open; their ports. */
    var started: bool
    var socketsOpen: bool
    var ports: seq<int>
    var udp6: bool

    var timeoutCounter: int
    /** The interval held in `timeoutChecker`, by id, and every interval not yet cleared. */
    var timeoutChecker: Option<nat>
    var liveTimers: set<nat>
    var nextTimer: nat

    ghost predicate Valid()
      reads this
    {
      (forall t :: t in liveTimers ==> t < nextTimer)
      && (timeoutChecker.Some? ==> timeoutChecker.value < nextTimer)
      && (controlTimeout == 0 ==> liveTimers == {} && timeoutChecker.None?)
      && (!started ==> !socketsOpen && liveTimers == {} && timeoutChecker.None?)
      && (started ==> timeoutCounter >= -1 && |ports| == 3)
      && (started && timeoutCounter == -1 ==> timeoutChecker.None?)
    }

    constructor(controlTimeout: nat)
      ensures Valid() && this.controlTimeout == controlTimeout
      ensures !started && !socketsOpen && liveTimers == {} && timeoutChecker.None?
    {
      this.controlTimeout := controlTimeout;
      started := false;
      socketsOpen := false;
      ports := [];
      udp6 := false;
      timeoutCounter := 0;
      timeoutChecker := None;
      liveTimers := {};
      nextTimer := 0;
    }

    /** `start`: three sockets of the session's address family bound to the negotiated
        ports, the counter at -1 and no interval held. An interval left running by an
        earlier `start` without `stop` keeps running. */
    method Start(ipv6: bool, audioPort: int, controlPort: int, timingPort: int)
      requires Valid()
      modifies this
      ensures Valid()
      ensures started && socketsOpen && ports == [audioPort, controlPort, timingPort] && udp6 == ipv6
      ensures timeoutCounter == -1 && timeoutChecker.None?
      ensures liveTimers == old(liveTimers) && nextTimer == old(nextTimer)
    {
      udp6 := ipv6;
      ports := [audioPort, controlPort, timingPort];
      started := true;
      socketsOpen := true;
      timeoutCounter := -1;
      timeoutChecker := None;
    }

    /** The audio socket's `message` handler: read the sequence number, decrypt the packet
        in place, and hand the payload to the output stream when there is one. Reading
        past a packet shorter than 4 octets, or decrypting without a 16-octet key and IV,
        throws. */
    method OnAudio(decrypt: (Block, Block) -> Block, msg: array<byte>, audioAesKey: Option<seq<byte>>,
                   audioAesIv: Option<seq<byte>>, outputStream: BaseStream.BaseDecoderStream?)
      returns (outcome: Outcome)
      requires outputStream != null ==> outputStream.Valid()
      modifies msg, outputStream
      ensures outputStream != null ==> outputStream.Valid()
      ensures outcome.Completed? <==>
        msg.Length >= 4 && audioAesKey.Some? && audioAesIv.Some?
        && |audioAesKey.value| == 16 && |audioAesIv.value| == 16
      ensures outcome.Completed? ==>
        msg[..] == DecryptedPacket(decrypt, audioAesKey.value, audioAesIv.value, old(msg[..]), 12)
      ensures outcome.Completed? && outputStream != null ==>
        outputStream.added == old(outputStream.added)
          + multiset{Reorder.Packet(if msg.Length >= 12 then msg[12..] else [], SequenceNumber(old(msg[..])))}
      ensures outcome.Threw? ==> msg[..] == old(msg[..])
      ensures (outcome.Threw? || outputStream == null) && outputStream != null ==>
        outputStream.added == old(outputStream.added) && outputStream.emitted == old(outputStream.emitted)
    {
      if msg.Length < 4 {
        return Threw("RangeError: Index out of range");
      }
      var sequenceNumber := SequenceNumber(msg[..]);
      if audioAesKey.None? || audioAesIv.None? {
        return Threw("TypeError: missing key or IV");
      }
      var audio := DecryptAudioData(decrypt, msg, audioAesKey.value, audioAesIv.value, 12);
      if audio.None? {
        return Threw("Error: Invalid key or IV length");
      }
      if outputStream != null {
        outputStream.Add(audio.value, sequenceNumber);
      }
      return Completed;
    }

    /** The control socket's `message` handler: on the first datagram after `start`, and
        only when a timeout is configured, start the one-second interval; every datagram
        resets the counter to 0. */
    method OnControl()
      requires Valid() && started
      modifies this
      ensures Valid()
      ensures timeoutCounter == 0
      ensures old(timeoutCounter) == -1 && controlTimeout != 0 ==>
        timeoutChecker == Some(old(nextTimer)) && liveTimers == old(liveTimers) + {old(nextTimer)}
        && nextTimer == old(nextTimer) + 1
      ensures !(old(timeoutCounter) == -1 && controlTimeout != 0) ==>
        timeoutChecker == old(timeoutChecker) && liveTimers == old(liveTimers) && nextTimer == old(nextTimer)
      ensures started == old(started) && socketsOpen == old(socketsOpen) && ports == old(ports)
    {
      if timeoutCounter == -1 && controlTimeout != 0 {
        timeoutChecker := Some(nextTimer);
        liveTimers := liveTimers + {nextTimer};
        nextTimer := nextTimer + 1;
      }
      timeoutCounter := 0;
    }

    /** One firing of a live interval: count a second, and call the RTSP server's
        `timeoutHandler` (answering true) once the count reaches the timeout; it fires again
        on every later tick until a control datagram resets the counter. */
    method Tick(timer: nat) returns (timedOut: bool)
      requires Valid() && timer in liveTimers
      modifies this`timeoutCounter
      ensures Valid()
      ensures timeoutCounter == old(timeoutCounter) + 1
      ensures timedOut <==> timeoutCounter >= controlTimeout
      ensures controlTimeout != 0
    {
      timeoutCounter := timeoutCounter + 1;
      timedOut := timeoutCounter >= controlTimeout;
    }

    /** The effect of `stop`, from the state before it to the state after: nothing before
        `start`; after it, the sockets are closed and the held interval, if any, is no longer
        live, every other interval and field staying as it was. */
    twostate predicate Stopped()
      reads this
    {
      && (!old(started) ==> unchanged(this))
      && (old(started) ==>
           && !socketsOpen
           && (timeoutChecker.None? || timeoutChecker.value !in liveTimers)
           && liveTimers == (if old(timeoutChecker).Some? then old(liveTimers) - {old(timeoutChecker).value} else old(liveTimers))
           && started && ports == old(ports) && udp6 == old(udp6) && timeoutCounter == old(timeoutCounter)
           && timeoutChecker == old(timeoutChecker) && nextTimer == old(nextTimer))
    }

    /** `stop`: nothing before `start`; otherwise clear the held interval and close the
        three sockets. Closing a closed socket throws inside the `try`, which swallows it,
        so stopping twice is harmless. */
    method Stop()
      requires Valid()
      modifies this
      ensures Valid() && Stopped()
    {
      if started {
        if timeoutChecker.Some? {
          liveTimers := liveTimers - {timeoutChecker.value};
        }
        socketsOpen := false;
      }
    }
  }
}
