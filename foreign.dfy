/** The foreign primitives the core calls but does not define: hashing, RSA with the
    AirPort Express private key, the AES-128 block function, base64, hex and UTF-8
    decoding. They are passed in as total functions and nothing is assumed about them
    beyond what a lemma states in its own `requires`. */
module Foreign {
  import opened Wrappers
  import opened Bytes

  /** A 16-octet AES block; AES-128 keys and CBC initialisation vectors have the same size. */
  type Block = s: seq<byte> | |s| == 16 witness seq(16, _ => 0)

  datatype Primitives = Primitives(
    /** `crypto.createHash('md5').update(s).digest().toString('hex')`. */
    md5Hex: string -> string,
    /** `forge.pki.rsa.encrypt(_, PRIVATE_KEY, 0x01)`: PKCS#1 block type 1 with the private key. */
    rsaPrivateEncrypt: seq<byte> -> seq<byte>,
    /** `PRIVATE_KEY.decrypt(_, 'RSA-OAEP')`; None where forge throws. */
    rsaOaepDecrypt: seq<byte> -> Option<seq<byte>>,
    /** `forge.util.encode64` and `new Buffer(s, 'base64')`. */
    base64Encode: seq<byte> -> string,
    base64Decode: string -> seq<byte>,
    /** `new Buffer(s, 'hex')`. */
    hexDecode: string -> seq<byte>,
    /** `buffer.toString()`: UTF-8 decoding. */
    utf8Decode: seq<byte> -> string,
    /** The AES-128 block decryption D(k, C). */
    aesDecrypt: (Block, Block) -> Block
  )
}
