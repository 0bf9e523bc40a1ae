/** `decryptAudioData` of src/helper.ts: AES-128 in CBC mode (section 6.2 of NIST
    SP 800-38A) over the whole blocks of an RTP packet after its header, in place, with
    a fresh decipher, and so a fresh chain from the IV, on every call. */
module AudioDecrypt {
  import opened Wrappers
  import opened Bytes
  import opened Foreign

  /** The octet-wise exclusive or of two blocks. */
  function XorBlock(a: Block, b: Block): Block {
    seq(16, k requires 0 <= k < 16 => Xor(a[k], b[k]))
  }

  lemma XorBlockCancel(a: Block, b: Block)
    ensures XorBlock(XorBlock(a, b), b) == a
  {
    forall k | 0 <= k < 16
      ensures XorBlock(XorBlock(a, b), b)[k] == a[k]
    {
      XorCancel(a[k], b[k]);
    }
  }

  /** One block through the decipher: D(K, C) xor the previous ciphertext block `chain`. */
  function DecipherBlock(decrypt: (Block, Block) -> Block, key: Block, chain: Block, c: Block): Block {
    XorBlock(decrypt(key, c), chain)
  }

  /** CBC decryption of a run of ciphertext blocks: P_j = D(K, C_j) xor C_{j-1}, with the
      IV standing for C_{-1}. */
  function CbcDecrypt(decrypt: (Block, Block) -> Block, key: Block, iv: Block, cs: seq<Block>): (ps: seq<Block>)
    ensures |ps| == |cs|
  {
    seq(|cs|, j requires 0 <= j < |cs| => DecipherBlock(decrypt, key, if j == 0 then iv else cs[j - 1], cs[j]))
  }

  /** CBC encryption, what the sender does: C_j = E(K, P_j xor C_{j-1}). */
  function CbcEncrypt(encrypt: (Block, Block) -> Block, key: Block, iv: Block, ps: seq<Block>): (cs: seq<Block>)
    ensures |cs| == |ps|
    decreases |ps|
  {
    if ps == [] then []
    else
      var c := encrypt(key, XorBlock(ps[0], iv));
      [c] + CbcEncrypt(encrypt, key, c, ps[1..])
  }

  /** The first ciphertext block is the chaining value of the rest. */
  lemma CbcDecryptCons(decrypt: (Block, Block) -> Block, key: Block, iv: Block, c: Block, cs: seq<Block>)
    ensures CbcDecrypt(decrypt, key, iv, [c] + cs)
         == [DecipherBlock(decrypt, key, iv, c)] + CbcDecrypt(decrypt, key, c, cs)
  {
    var x := CbcDecrypt(decrypt, key, iv, [c] + cs);
    var y := [DecipherBlock(decrypt, key, iv, c)] + CbcDecrypt(decrypt, key, c, cs);
    forall j | 0 <= j < |x|
      ensures x[j] == y[j]
    {
      if j > 0 {
        assert ([c] + cs)[j] == cs[j - 1];
        assert ([c] + cs)[j - 1] == if j == 1 then c else cs[j - 2];
      }
    }
  }

  /** Decryption undoes the sender's encryption under the same key and IV whenever the
      block functions are inverse. */
  lemma {:induction false} CbcRoundTrip(decrypt: (Block, Block) -> Block, encrypt: (Block, Block) -> Block,
                                        key: Block, iv: Block, ps: seq<Block>)
    requires forall k: Block, b: Block :: decrypt(k, encrypt(k, b)) == b
    ensures CbcDecrypt(decrypt, key, iv, CbcEncrypt(encrypt, key, iv, ps)) == ps
    decreases |ps|
  {
    if ps != [] {
      var c := encrypt(key, XorBlock(ps[0], iv));
      CbcRoundTrip(decrypt, encrypt, key, c, ps[1..]);
      CbcDecryptCons(decrypt, key, iv, c, CbcEncrypt(encrypt, key, c, ps[1..]));
      XorBlockCancel(ps[0], iv);
      assert ps == [ps[0]] + ps[1..];
    }
  }

  /** Decryption loses nothing: encrypting the plaintext again gives back the ciphertext. */
  lemma {:induction false} CbcReEncrypt(decrypt: (Block, Block) -> Block, encrypt: (Block, Block) -> Block,
                                        key: Block, iv: Block, cs: seq<Block>)
    requires forall k: Block, b: Block :: encrypt(k, decrypt(k, b)) == b
    ensures CbcEncrypt(encrypt, key, iv, CbcDecrypt(decrypt, key, iv, cs)) == cs
    decreases |cs|
  {
    if cs != [] {
      assert cs == [cs[0]] + cs[1..];
      CbcDecryptCons(decrypt, key, iv, cs[0], cs[1..]);
      XorBlockCancel(decrypt(key, cs[0]), iv);
      CbcReEncrypt(decrypt, encrypt, key, cs[0], cs[1..]);
    }
  }

  // ------------------------------------------------------------ one RTP packet

  /** The number of whole blocks after a header of `headerSize` octets. */
  function FullBlocks(len: nat, headerSize: nat): nat {
    if headerSize <= len then (len - headerSize) / 16 else 0
  }

  /** The whole blocks end within the packet, less than a block before its end. */
  lemma WholeBlocks(len: nat, headerSize: nat)
    requires headerSize <= len
    ensures headerSize + 16 * FullBlocks(len, headerSize) <= len
    ensures len - (headerSize + 16 * FullBlocks(len, headerSize)) == (len - headerSize) % 16
  {
  }

  /** An offset among the whole blocks lies in block (t - headerSize) / 16, which ends
      within the packet. */
  lemma BlockOfOffset(len: nat, headerSize: nat, t: nat)
    requires headerSize <= t < headerSize + 16 * FullBlocks(len, headerSize)
    ensures headerSize + 16 * ((t - headerSize) / 16) + 16 <= len
  {
  }

  /** Octet q of block j is at offset headerSize + 16 j + q. */
  lemma BlockOffset(headerSize: nat, j: nat, q: nat)
    requires q < 16
    ensures (headerSize + 16 * j + q - headerSize) / 16 == j
    ensures (headerSize + 16 * j + q - headerSize) % 16 == q
  {
  }

  /** Block j after the header, deciphered: D(K, C_j) xor C_{j-1}, with C_{-1} the IV. */
  function PacketBlock(decrypt: (Block, Block) -> Block, key: Block, iv: Block, s: seq<byte>, headerSize: nat, j: nat): Block
    requires headerSize + 16 * j + 16 <= |s|
  {
    DecipherBlock(decrypt, key, if j == 0 then iv else s[headerSize + 16 * j - 16..headerSize + 16 * j],
                  s[headerSize + 16 * j..headerSize + 16 * j + 16])
  }

  /** The packet after decryption, octet by octet: an octet of the whole blocks after the
      header is that octet of its deciphered block; the header and the trailing partial
      block pass through. */
  function DecryptedPacket(decrypt: (Block, Block) -> Block, key: Block, iv: Block, s: seq<byte>, headerSize: nat): (r: seq<byte>)
    ensures |r| == |s|
  {
    var e := headerSize + 16 * FullBlocks(|s|, headerSize);
    seq(|s|, t requires 0 <= t < |s| =>
      if headerSize <= t < e then
        BlockOfOffset(|s|, headerSize, t);
        PacketBlock(decrypt, key, iv, s, headerSize, (t - headerSize) / 16)[(t - headerSize) % 16]
      else s[t])
  }

  /** The octets that pass through: the header, and the last (len - headerSize) mod 16
      octets, which do not fill a block; a packet shorter than its header is unchanged. */
  lemma PassThrough(decrypt: (Block, Block) -> Block, key: Block, iv: Block, s: seq<byte>, headerSize: nat)
    ensures headerSize > |s| ==> DecryptedPacket(decrypt, key, iv, s, headerSize) == s
    ensures headerSize <= |s| ==>
      var r := DecryptedPacket(decrypt, key, iv, s, headerSize);
      var e := headerSize + 16 * FullBlocks(|s|, headerSize);
      e <= |s| && |s| - e == (|s| - headerSize) % 16 && r[..headerSize] == s[..headerSize] && r[e..] == s[e..]
  {
    var r := DecryptedPacket(decrypt, key, iv, s, headerSize);
    if headerSize <= |s| {
      WholeBlocks(|s|, headerSize);
      var e := headerSize + 16 * FullBlocks(|s|, headerSize);
      assert r[..headerSize] == s[..headerSize];
      assert r[e..] == s[e..];
    } else {
      assert r == s;
    }
  }

  /** Block j after the header becomes D(K, C_j) xor C_{j-1}, C_{-1} being the IV. */
  lemma BlockDecrypted(decrypt: (Block, Block) -> Block, key: Block, iv: Block, s: seq<byte>, headerSize: nat, j: nat)
    requires j < FullBlocks(|s|, headerSize)
    ensures headerSize + 16 * j + 16 <= |s|
    ensures DecryptedPacket(decrypt, key, iv, s, headerSize)[headerSize + 16 * j..headerSize + 16 * j + 16]
         == PacketBlock(decrypt, key, iv, s, headerSize, j)
  {
    WholeBlocks(|s|, headerSize);
    var r := DecryptedPacket(decrypt, key, iv, s, headerSize);
    forall q | 0 <= q < 16
      ensures r[headerSize + 16 * j + q] == PacketBlock(decrypt, key, iv, s, headerSize, j)[q]
    {
      BlockOffset(headerSize, j, q);
    }
  }

  /** The n 16-octet blocks of `x` after its header. */
  function BlocksOf(x: seq<byte>, headerSize: nat, n: nat): (bs: seq<Block>)
    requires headerSize + 16 * n <= |x|
    ensures |bs| == n
  {
    seq(n, j requires 0 <= j < n => x[headerSize + 16 * j..headerSize + 16 * j + 16])
  }

  /** Block j of the n blocks of `x` after its header is the 16 octets at headerSize + 16 j. */
  lemma BlockOfRun(x: seq<byte>, headerSize: nat, n: nat, j: nat, b: Block)
    requires headerSize + 16 * n <= |x| && j < n
    requires x[headerSize + 16 * j..headerSize + 16 * j + 16] == b
    ensures BlocksOf(x, headerSize, n)[j] == b
  {
  }

  /** Block j of the CBC decryption of n whole blocks after the header is the deciphered
      block j of the packet. */
  lemma CbcBlockAt(decrypt: (Block, Block) -> Block, key: Block, iv: Block, s: seq<byte>, headerSize: nat,
                   n: nat, j: nat)
    requires headerSize + 16 * n <= |s| && j < n
    ensures headerSize + 16 * j + 16 <= |s|
    ensures CbcDecrypt(decrypt, key, iv, BlocksOf(s, headerSize, n))[j] == PacketBlock(decrypt, key, iv, s, headerSize, j)
  {
    var lo := headerSize + 16 * j;
    var cs := BlocksOf(s, headerSize, n);
    assert cs[j] == s[lo..lo + 16];
    if j > 0 {
      assert headerSize + 16 * (j - 1) == lo - 16;
      assert cs[j - 1] == s[lo - 16..lo];
    }
  }

  /** Block j of the decrypted packet is block j of the CBC decryption of the packet's
      whole blocks. */
  lemma CbcBlockOfPacket(decrypt: (Block, Block) -> Block, key: Block, iv: Block, s: seq<byte>, headerSize: nat, j: nat)
    requires j < FullBlocks(|s|, headerSize)
    ensures var n := FullBlocks(|s|, headerSize);
      headerSize + 16 * n <= |s|
      && BlocksOf(DecryptedPacket(decrypt, key, iv, s, headerSize), headerSize, n)[j]
         == CbcDecrypt(decrypt, key, iv, BlocksOf(s, headerSize, n))[j]
  {
    var n := FullBlocks(|s|, headerSize);
    WholeBlocks(|s|, headerSize);
    var r := DecryptedPacket(decrypt, key, iv, s, headerSize);
    var p := PacketBlock(decrypt, key, iv, s, headerSize, j);
    BlockDecrypted(decrypt, key, iv, s, headerSize, j);
    BlockOfRun(r, headerSize, n, j, p);
    CbcBlockAt(decrypt, key, iv, s, headerSize, n, j);
  }

  /** The whole blocks of the decrypted packet are the CBC decryption, from the IV, of the
      whole blocks of the packet. */
  lemma PacketIsCbc(decrypt: (Block, Block) -> Block, key: Block, iv: Block, s: seq<byte>, headerSize: nat)
    requires headerSize <= |s|
    ensures var n := FullBlocks(|s|, headerSize);
      headerSize + 16 * n <= |s|
      && BlocksOf(DecryptedPacket(decrypt, key, iv, s, headerSize), headerSize, n)
         == CbcDecrypt(decrypt, key, iv, BlocksOf(s, headerSize, n))
  {
    var n := FullBlocks(|s|, headerSize);
    WholeBlocks(|s|, headerSize);
    var x := BlocksOf(DecryptedPacket(decrypt, key, iv, s, headerSize), headerSize, n);
    var y := CbcDecrypt(decrypt, key, iv, BlocksOf(s, headerSize, n));
    forall j | 0 <= j < n
      ensures x[j] == y[j]
    {
      CbcBlockOfPacket(decrypt, key, iv, s, headerSize, j);
    }
  }

  /** A packet whose whole blocks the sender CBC-encrypted from the same key and IV
      decrypts to the sender's plaintext blocks. */
  lemma PacketRoundTrip(decrypt: (Block, Block) -> Block, encrypt: (Block, Block) -> Block,
                        key: Block, iv: Block, s: seq<byte>, headerSize: nat, ps: seq<Block>)
    requires forall k: Block, b: Block :: decrypt(k, encrypt(k, b)) == b
    requires headerSize <= |s| && |ps| == FullBlocks(|s|, headerSize)
    requires BlocksOf(s, headerSize, |ps|) == CbcEncrypt(encrypt, key, iv, ps)
    ensures BlocksOf(DecryptedPacket(decrypt, key, iv, s, headerSize), headerSize, |ps|) == ps
  {
    PacketIsCbc(decrypt, key, iv, s, headerSize);
    CbcRoundTrip(decrypt, encrypt, key, iv, ps);
  }

  /** Where the source's loop ends: `data.length - (data.length - headerSize) % 16` with
      ECMAScript's `%`, which is the end of the last whole block, or leaves no block at all
      when the packet is shorter than its header. */
  lemma EndOfEncodedData(len: nat, headerSize: nat)
    ensures headerSize <= len ==> len - JsRem(len - headerSize, 16) == headerSize + 16 * FullBlocks(len, headerSize)
    ensures headerSize > len ==> len - JsRem(len - headerSize, 16) - 16 < headerSize
  {
  }

  /** One pass of the source's loop: the 16 octets at `i` are copied out, deciphered
      (`decipher.update`, whose CBC state is the previous ciphertext block `chain`), and
      the plaintext is copied back over them. */
  method DecryptBlockAt(decrypt: (Block, Block) -> Block, key: Block, data: array<byte>, i: nat, chain: Block)
    returns (tmp: Block)
    requires i + 16 <= data.Length
    modifies data
    ensures tmp == old(data[i..i + 16])
    ensures forall t :: 0 <= t < data.Length ==>
      data[t] == if i <= t < i + 16 then DecipherBlock(decrypt, key, chain, tmp)[t - i] else old(data[t])
  {
    tmp := data[i..i + 16];
    var plain := DecipherBlock(decrypt, key, chain, tmp);
    forall j | 0 <= j < 16 {
      data[i + j] := plain[j];
    }
  }

  /** `x` holds the packet `s` with its first k whole blocks after the header deciphered
      and every other octet as in `s`. */
  ghost predicate BlocksBelow(decrypt: (Block, Block) -> Block, key: Block, iv: Block, s: seq<byte>, headerSize: nat,
                              x: seq<byte>, k: nat)
  {
    && |x| == |s|
    && (k == 0 || headerSize + 16 * k <= |s|)
    && (forall j, q :: 0 <= j < k && 0 <= q < 16 ==>
          x[headerSize + 16 * j + q] == PacketBlock(decrypt, key, iv, s, headerSize, j)[q])
    && (forall t :: 0 <= t < |x| && !(headerSize <= t < headerSize + 16 * k) ==> x[t] == s[t])
  }

  /** Deciphering block k, read before it is overwritten, with the ciphertext block before
      it as the chaining value, extends the deciphered prefix by one block. */
  lemma {:induction false} NextBlock(decrypt: (Block, Block) -> Block, key: Block, iv: Block, s: seq<byte>, headerSize: nat,
                                     before: seq<byte>, after: seq<byte>, k: nat, chain: Block, tmp: Block)
    requires BlocksBelow(decrypt, key, iv, s, headerSize, before, k)
    requires headerSize + 16 * k + 16 <= |s|
    requires chain == if k == 0 then iv else s[headerSize + 16 * k - 16..headerSize + 16 * k]
    requires tmp == before[headerSize + 16 * k..headerSize + 16 * k + 16]
    requires |after| == |before|
    requires forall t :: 0 <= t < |after| ==>
      after[t] == if headerSize + 16 * k <= t < headerSize + 16 * k + 16
                  then DecipherBlock(decrypt, key, chain, tmp)[t - headerSize - 16 * k] else before[t]
    ensures tmp == s[headerSize + 16 * k..headerSize + 16 * k + 16]
    ensures BlocksBelow(decrypt, key, iv, s, headerSize, after, k + 1)
  {
    var i := headerSize + 16 * k;
    forall q | 0 <= q < 16
      ensures tmp[q] == s[i + q]
    {
      assert tmp[q] == before[i + q];
    }
    assert tmp == s[i..i + 16];
    forall j, q | 0 <= j < k + 1 && 0 <= q < 16
      ensures after[headerSize + 16 * j + q] == PacketBlock(decrypt, key, iv, s, headerSize, j)[q]
    {
      if j == k {
        assert after[i + q] == DecipherBlock(decrypt, key, chain, tmp)[q];
      }
    }
  }

  /** Once all the whole blocks are deciphered, every octet is that of the decrypted packet. */
  lemma OctetFromBlocks(decrypt: (Block, Block) -> Block, key: Block, iv: Block, s: seq<byte>, headerSize: nat,
                        x: seq<byte>, t: nat)
    requires BlocksBelow(decrypt, key, iv, s, headerSize, x, FullBlocks(|s|, headerSize))
    requires t < |s|
    ensures x[t] == DecryptedPacket(decrypt, key, iv, s, headerSize)[t]
  {
    if headerSize <= t < headerSize + 16 * FullBlocks(|s|, headerSize) {
      var j, q := (t - headerSize) / 16, (t - headerSize) % 16;
      BlockOfOffset(|s|, headerSize, t);
      assert t == headerSize + 16 * j + q;
    }
  }

  /** Once all the whole blocks are deciphered, the sequence is the decrypted packet. */
  lemma FromBlocks(decrypt: (Block, Block) -> Block, key: Block, iv: Block, s: seq<byte>, headerSize: nat, x: seq<byte>)
    requires BlocksBelow(decrypt, key, iv, s, headerSize, x, FullBlocks(|s|, headerSize))
    ensures x == DecryptedPacket(decrypt, key, iv, s, headerSize)
  {
    var r := DecryptedPacket(decrypt, key, iv, s, headerSize);
    forall t | 0 <= t < |s|
      ensures x[t] == r[t]
    {
      OctetFromBlocks(decrypt, key, iv, s, headerSize, x, t);
    }
  }

  /** `decryptAudioData`. The decipher is created before the loop, so a key or IV that is
      not 16 octets makes it throw (None) before any octet is touched; otherwise the whole
      blocks after the header are rewritten in place and the packet from `headerSize` on
      is returned. */
  method DecryptAudioData(decrypt: (Block, Block) -> Block, data: array<byte>,
                          audioAesKey: seq<byte>, audioAesIv: seq<byte>, headerSize: nat)
    returns (r: Option<seq<byte>>)
    modifies data
    ensures (|audioAesKey| != 16 || |audioAesIv| != 16) ==> r.None? && data[..] == old(data[..])
    ensures |audioAesKey| == 16 && |audioAesIv| == 16 ==>
      data[..] == DecryptedPacket(decrypt, audioAesKey, audioAesIv, old(data[..]), headerSize)
      && r == Some(if headerSize <= data.Length then data[headerSize..] else [])
  {
    var remainder := JsRem(data.Length - headerSize, 16);
    var endOfEncodedData := data.Length - remainder;
    if |audioAesKey| != 16 || |audioAesIv| != 16 {
      return None;
    }
    var key: Block := audioAesKey;
    var iv: Block := audioAesIv;
    var chain: Block := iv;
    ghost var s := data[..];
    ghost var n := FullBlocks(data.Length, headerSize);
    ghost var k := 0;
    EndOfEncodedData(data.Length, headerSize);
    var i := headerSize;
    var l := endOfEncodedData - 16;
    while i <= l
      invariant i == headerSize + 16 * k && k <= n
      invariant chain == if k == 0 then iv else s[i - 16..i]
      invariant BlocksBelow(decrypt, key, iv, s, headerSize, data[..], k)
      decreases n - k
    {
      ghost var before := data[..];
      var tmp := DecryptBlockAt(decrypt, key, data, i, chain);
      NextBlock(decrypt, key, iv, s, headerSize, before, data[..], k, chain, tmp);
      chain := tmp;
      i := i + 16;
      k := k + 1;
    }
    FromBlocks(decrypt, key, iv, s, headerSize, data[..]);
    r := Some(if headerSize <= data.Length then data[headerSize..] else []);
  }
}
