/** `PcmDecoderStream._transform` of lib/streams/pcm.ts (and its twin lib/streams/pcm.js):
    the "endian hack" that swaps every pair of adjacent octets of a chunk of 16-bit PCM. */
module PcmStream {
  import opened Bytes

  /** `pcmData[k]`: an index past the end reads `undefined`, which a Buffer stores as 0. */
  function ByteAt(s: seq<byte>, k: nat): byte {
    if k < |s| then s[k] else 0
  }

  /** The output chunk: position k takes the other octet of its pair; the last octet of an
      odd-length chunk has no partner and becomes 0. */
  function Swapped(s: seq<byte>): (r: seq<byte>)
    ensures |r| == |s|
  {
    seq(|s|, k requires 0 <= k < |s| => if k % 2 == 0 then ByteAt(s, k + 1) else s[k - 1])
  }

  /** A reference reading, pair by pair from the front. */
  function SwapPairs(s: seq<byte>): seq<byte>
    decreases |s|
  {
    if |s| == 0 then []
    else if |s| == 1 then [0]
    else [s[1], s[0]] + SwapPairs(s[2..])
  }

  /** The index-wise definition agrees with the pair-by-pair reading. */
  lemma {:induction false} SwappedIsSwapPairs(s: seq<byte>)
    ensures Swapped(s) == SwapPairs(s)
    decreases |s|
  {
    if |s| >= 2 {
      SwappedIsSwapPairs(s[2..]);
      var r := Swapped(s);
      var t := [s[1], s[0]] + SwapPairs(s[2..]);
      assert |t| == |r|;
      forall k | 0 <= k < |s|
        ensures r[k] == t[k]
      {
        if k >= 2 {
          assert t[k] == SwapPairs(s[2..])[k - 2] == Swapped(s[2..])[k - 2];
          assert (k - 2) % 2 == k % 2;
        }
      }
    }
  }

  /** Adjacent octets trade places: for each even i with i + 1 inside the chunk. */
  lemma PairSwapped(s: seq<byte>, i: nat)
    requires i % 2 == 0 && i + 1 < |s|
    ensures Swapped(s)[i] == s[i + 1] && Swapped(s)[i + 1] == s[i]
  {
    assert (i + 1) % 2 == 1;
  }

  /** On a chunk of whole 16-bit samples the swap undoes itself. */
  lemma SwapInvolution(s: seq<byte>)
    requires |s| % 2 == 0
    ensures Swapped(Swapped(s)) == s
  {
    var r := Swapped(s);
    forall k | 0 <= k < |s|
      ensures Swapped(r)[k] == s[k]
    {
      if k % 2 == 0 {
        assert k + 1 < |s|;
        assert (k + 1) % 2 == 1;
      } else {
        assert (k - 1) % 2 == 0;
      }
    }
  }

  /** On an odd-length chunk the last octet comes out as 0, so swapping twice restores
      everything but that octet. */
  lemma SwapOddLength(s: seq<byte>)
    requires |s| % 2 == 1
    ensures Swapped(s)[|s| - 1] == 0
    ensures Swapped(Swapped(s)) == s[..|s| - 1] + [0]
  {
    var r := Swapped(s);
    var n := |s|;
    assert (n - 1) % 2 == 0;
    forall k | 0 <= k < n
      ensures Swapped(r)[k] == (s[..n - 1] + [0])[k]
    {
      if k % 2 == 0 && k + 1 < n {
        assert (k + 1) % 2 == 1;
      } else if k % 2 == 1 {
        assert (k - 1) % 2 == 0;
        assert k - 1 + 1 < n;
      }
    }
  }

  /** `_transform`: a fresh buffer of the same length filled two octets per step; the
      input is only read, and the one output chunk goes to the callback without error. */
  method Transform(pcmData: array<byte>) returns (swapBuf: array<byte>)
    ensures fresh(swapBuf)
    ensures swapBuf[..] == Swapped(pcmData[..])
  {
    var n := pcmData.Length;
    swapBuf := new byte[n];
    var i := 0;
    while i < n
      invariant i % 2 == 0 && 0 <= i <= n + 1
      invariant forall k :: 0 <= k < i && k < n ==> swapBuf[k] == Swapped(pcmData[..])[k]
    {
      swapBuf[i] := if i + 1 < n then pcmData[i + 1] else 0;
      if i + 1 < n {
        swapBuf[i + 1] := pcmData[i];
      }
      assert (i + 1) % 2 == 1;
      i := i + 2;
    }
  }
}
