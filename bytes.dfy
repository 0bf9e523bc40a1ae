/** Octets and the Node.js Buffer reads the core relies on. */
module Bytes {
  import opened Wrappers

  /** An octet of a Node.js Buffer. */
  type byte = x: int | 0 <= x < 0x100

  function Pow2(n: nat): (r: nat)
    ensures r >= 1
  {
    if n == 0 then 1 else 2 * Pow2(n - 1)
  }

  /** Bitwise exclusive or of the low `width` bits of `a` and `b`, least significant first. */
  function XorBits(a: nat, b: nat, width: nat): (r: nat)
    ensures r < Pow2(width)
    decreases width
  {
    if width == 0 then 0
    else (if a % 2 == b % 2 then 0 else 1) + 2 * XorBits(a / 2, b / 2, width - 1)
  }

  /** Bitwise exclusive or of two octets. */
  function Xor(a: byte, b: byte): byte {
    assert Pow2(8) == 0x100;
    XorBits(a, b, 8)
  }

  /** Exclusive or with the same value twice is the identity on `width`-bit numbers. */
  lemma {:induction false} XorBitsCancel(a: nat, b: nat, width: nat)
    requires a < Pow2(width)
    ensures XorBits(XorBits(a, b, width), b, width) == a
    decreases width
  {
    if width > 0 {
      var rest := XorBits(a / 2, b / 2, width - 1);
      var r := XorBits(a, b, width);
      assert r % 2 == (if a % 2 == b % 2 then 0 else 1) && r / 2 == rest;
      XorBitsCancel(a / 2, b / 2, width - 1);
    }
  }

  lemma XorCancel(a: byte, b: byte)
    ensures Xor(Xor(a, b), b) == a
  {
    assert Pow2(8) == 0x100;
    XorBitsCancel(a, b, 8);
  }

  /** `buf.readUInt8(off)`, `buf.readUInt16BE(off)`, `buf.readUInt32BE(off)`: unsigned
      big-endian reads. Node.js throws a RangeError when the read runs past the end, so
      callers check the bound first. */
  function ReadUInt8(buf: seq<byte>, off: nat): (r: nat)
    requires off + 1 <= |buf|
    ensures r < 0x100
  {
    buf[off]
  }

  function ReadUInt16BE(buf: seq<byte>, off: nat): (r: nat)
    requires off + 2 <= |buf|
    ensures r < 0x1_0000
  {
    buf[off] as int * 0x100 + buf[off + 1] as int
  }

  function ReadUInt32BE(buf: seq<byte>, off: nat): (r: nat)
    requires off + 4 <= |buf|
    ensures r < 0x1_0000_0000
  {
    ((buf[off] as int * 0x100 + buf[off + 1] as int) * 0x100 + buf[off + 2] as int) * 0x100 + buf[off + 3] as int
  }

  /** The big-endian encodings a sender writes, inverses of the reads above. */
  function EncodeUInt16BE(v: nat): (r: seq<byte>)
    requires v < 0x1_0000
    ensures |r| == 2
  {
    [v / 0x100, v % 0x100]
  }

  function EncodeUInt32BE(v: nat): (r: seq<byte>)
    requires v < 0x1_0000_0000
    ensures |r| == 4
  {
    EncodeUInt16BE(v / 0x1_0000) + EncodeUInt16BE(v % 0x1_0000)
  }

  lemma ReadEncode16(v: nat, prefix: seq<byte>, suffix: seq<byte>)
    requires v < 0x1_0000
    ensures ReadUInt16BE(prefix + EncodeUInt16BE(v) + suffix, |prefix|) == v
  {
    var buf := prefix + EncodeUInt16BE(v) + suffix;
    assert buf[|prefix|] == v / 0x100 && buf[|prefix| + 1] == v % 0x100;
  }

  lemma ReadEncode32(v: nat, prefix: seq<byte>, suffix: seq<byte>)
    requires v < 0x1_0000_0000
    ensures ReadUInt32BE(prefix + EncodeUInt32BE(v) + suffix, |prefix|) == v
  {
    var hi, lo := v / 0x1_0000, v % 0x1_0000;
    var buf := prefix + EncodeUInt32BE(v) + suffix;
    assert buf == prefix + EncodeUInt16BE(hi) + (EncodeUInt16BE(lo) + suffix);
    assert buf == (prefix + EncodeUInt16BE(hi)) + EncodeUInt16BE(lo) + suffix;
    ReadEncode16(hi, prefix, EncodeUInt16BE(lo) + suffix);
    ReadEncode16(lo, prefix + EncodeUInt16BE(hi), suffix);
    var p := |prefix|;
    assert ReadUInt32BE(buf, p) == ReadUInt16BE(buf, p) * 0x1_0000 + ReadUInt16BE(buf, p + 2);
  }

  /** ECMAScript ToInt32: the 32-bit two's-complement reading of `x mod 2^32`. */
  function ToInt32(x: int): (r: int)
    ensures -0x8000_0000 <= r < 0x8000_0000
    ensures (r - x) % 0x1_0000_0000 == 0
  {
    var m := x % 0x1_0000_0000;
    if m >= 0x8000_0000 then m - 0x1_0000_0000 else m
  }

  /** A non-zero multiple of `b` is at least `b` in magnitude. */
  lemma MultipleSize(b: int, t: int)
    requires b > 0
    ensures t >= 1 ==> b * t >= b
    ensures t <= -1 ==> b * t <= -b
  {
    if t >= 1 {
      assert b * t == b + b * (t - 1);
    } else if t <= -1 {
      assert b * t == -b - b * (-t - 1);
    }
  }

  /** A multiple of `b` leaves no remainder. */
  lemma MultipleMod(b: int, q: int)
    requires b > 0
    ensures (b * q) % b == 0
  {
    var m, k := (b * q) % b, (b * q) / b;
    var t := q - k;
    assert b * t == m by {
      assert b * q == b * k + m;
      assert b * t == b * q - b * k;
    }
    MultipleSize(b, t);
  }

  /** ECMAScript `a % b` for a positive divisor: the remainder truncates toward zero,
      so it is smaller than `b` in magnitude, differs from `a` by a multiple of `b`, and
      takes the sign of `a`. */
  function JsRem(a: int, b: int): (r: int)
    requires b > 0
    ensures -b < r < b && (a - r) % b == 0
    ensures a >= 0 ==> r >= 0
    ensures a < 0 ==> r <= 0
  {
    if a >= 0 then
      var r := a % b;
      assert a - r == b * (a / b);
      MultipleMod(b, a / b);
      r
    else
      var r := -((-a) % b);
      assert a - r == b * -((-a) / b);
      MultipleMod(b, -((-a) / b));
      r
  }

  /** The three properties of `JsRem` determine it: no other number is smaller than `b` in
      magnitude, congruent to `a` modulo `b` and of the sign of `a`. */
  lemma JsRemUnique(a: int, b: int, r: int)
    requires b > 0 && -b < r < b && (a - r) % b == 0
    requires a >= 0 ==> r >= 0
    requires a < 0 ==> r <= 0
    ensures r == JsRem(a, b)
  {
    var j := JsRem(a, b);
    var d := r - j;
    assert -b < r - j < b && (a >= 0 ==> 0 <= r && 0 <= j) && (a < 0 ==> r <= 0 && j <= 0);
    assert (a - j) == b * ((a - j) / b);
    assert (a - r) == b * ((a - r) / b);
    var q := (a - j) / b - (a - r) / b;
    assert d == b * q;
    MultipleSize(b, q);
  }
}
