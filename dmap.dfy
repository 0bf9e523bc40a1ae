/** The DMAP reader of src/helper.ts (`parseDmap` and `DMAP_TYPES`): after an 8-byte
    header, records of {4-byte tag}{4-byte big-endian length}{payload}. */
module Dmap {
  import opened Wrappers
  import opened Bytes

  datatype DmapType = Str | UInt8 | UInt16 | UInt32 | Mper

  /** A decoded value. `Text` holds the payload octets; the source turns them into a
      string with UTF-8 decoding. */
  datatype DmapValue = Num(n: int) | Text(bytes: seq<byte>)

  type Metadata = map<string, DmapValue>

  /** DMAP_TYPES. */
  const DmapTypes: map<string, DmapType> :=
    map["mper" := Mper, "asal" := Str, "asar" := Str, "ascp" := Str, "asgn" := Str, "minm" := Str,
        "astn" := UInt16, "asdk" := UInt8, "caps" := UInt8, "astm" := UInt32]

  /** `DMAP_TYPES[itemType]`: undefined (None) for a tag the table does not name. */
  function TypeOf(name: string): Option<DmapType> {
    if name in DmapTypes then Some(DmapTypes[name]) else None
  }

  /** The property name of a tag. Every tag of DMAP_TYPES is ASCII, on which this agrees
      with the source's UTF-8 `toString()`; no other tag produces an entry. */
  function TagName(tag: seq<byte>): string {
    seq(|tag|, i requires 0 <= i < |tag| => tag[i] as char)
  }

  /** The value `(hi << 8) + lo` of an `mper` record: ECMAScript `<<` works on ToInt32. */
  function MperValue(hi: nat, lo: nat): int {
    ToInt32(hi * 256) + lo
  }

  /** Reading a payload by its type; None where a Buffer read runs past the payload and
      Node.js throws a RangeError. */
  function Decode(t: DmapType, data: seq<byte>): Option<DmapValue> {
    match t
    case Str => Some(Text(data))
    case UInt8 => if |data| < 1 then None else Some(Num(ReadUInt8(data, 0)))
    case UInt16 => if |data| < 2 then None else Some(Num(ReadUInt16BE(data, 0)))
    case UInt32 => if |data| < 4 then None else Some(Num(ReadUInt32BE(data, 0)))
    case Mper =>
      if |data| < 8 then None
      else Some(Num(MperValue(ReadUInt32BE(data, 0), ReadUInt32BE(data, 4))))
  }

  function Min(a: int, b: int): int { if a < b then a else b }

  /** The effect of one record on the entries gathered so far: None where the source
      throws; an empty payload or a tag outside DMAP_TYPES changes nothing. */
  function Absorb(out: Metadata, name: string, len: nat, data: seq<byte>): Option<Metadata> {
    if len != 0 && TypeOf(name).Some? then
      match Decode(TypeOf(name).value, data)
      case None => None
      case Some(v) => Some(out[name := v])
    else Some(out)
  }

  /** The walk from position `i` with the entries gathered so far; None where the source
      throws (a record header cut short by the end of the buffer, or a short payload). */
  function WalkFrom(buf: seq<byte>, i: nat, out: Metadata): Option<Metadata>
    decreases if i < |buf| then |buf| - i else 0
  {
    if i >= |buf| then Some(out)
    else if i + 8 > |buf| then None
    else
      var len := ReadUInt32BE(buf, i + 4);
      var next := i + 8 + len;
      var step := Absorb(out, TagName(buf[i..i + 4]), len, buf[i + 8..Min(next, |buf|)]);
      if step.None? then None else WalkFrom(buf, next, step.value)
  }

  /** One step of the walk: a complete record header at `i` whose record is absorbed
      into `out'` leaves the walk from the next record with `out'`. */
  lemma WalkStep(buf: seq<byte>, i: nat, out: Metadata, out': Metadata)
    requires i + 8 <= |buf|
    requires var len := ReadUInt32BE(buf, i + 4);
      Absorb(out, TagName(buf[i..i + 4]), len, buf[i + 8..Min(i + 8 + len, |buf|)]) == Some(out')
    ensures WalkFrom(buf, i, out) == WalkFrom(buf, i + 8 + ReadUInt32BE(buf, i + 4), out')
  {
  }

  /** A record the walk cannot absorb ends it in failure. */
  lemma WalkFails(buf: seq<byte>, i: nat, out: Metadata)
    requires i + 8 <= |buf|
    requires var len := ReadUInt32BE(buf, i + 4);
      Absorb(out, TagName(buf[i..i + 4]), len, buf[i + 8..Min(i + 8 + len, |buf|)]).None?
    ensures WalkFrom(buf, i, out) == None
  {
  }

  /** The body of `parseDmap`'s loop for the record whose header is at `i`: an item of
      non-zero length whose tag DMAP_TYPES names is decoded and stored under that tag;
      None where the decoding throws. */
  method ReadRecord(buffer: seq<byte>, i: nat, output: Metadata) returns (r: Option<Metadata>)
    requires i + 8 <= |buffer|
    ensures r == Absorb(output, TagName(buffer[i..i + 4]), ReadUInt32BE(buffer, i + 4),
                        buffer[i + 8..Min(i + 8 + ReadUInt32BE(buffer, i + 4), |buffer|)])
  {
    var itemType := buffer[i..i + 4];
    var itemLength := ReadUInt32BE(buffer, i + 4);
    var data := buffer[i + 8..Min(i + 8 + itemLength, |buffer|)];
    var name := TagName(itemType);
    r := Some(output);
    if itemLength != 0 {
      var t := TypeOf(name);
      if t.Some? {
        var v := Decode(t.value, data);
        if v.None? {
          r := None;
        } else {
          r := Some(output[name := v.value]);
        }
      }
    }
  }

  /** parseDmap. Each step advances by 8 plus the declared length, so the walk terminates. */
  method ParseDmap(buffer: seq<byte>) returns (r: Option<Metadata>)
    ensures r == WalkFrom(buffer, 8, map[])
  {
    var output: Metadata := map[];
    var i := 8;
    while i < |buffer|
      invariant 8 <= i
      invariant WalkFrom(buffer, i, output) == WalkFrom(buffer, 8, map[])
      decreases |buffer| - i
    {
      if i + 8 > |buffer| {
        return None;
      }
      var itemLength := ReadUInt32BE(buffer, i + 4);
      var step := ReadRecord(buffer, i, output);
      if step.None? {
        WalkFails(buffer, i, output);
        return None;
      }
      WalkStep(buffer, i, output, step.value);
      output := step.value;
      i := i + 8 + itemLength;
    }
    return Some(output);
  }

  // ------------------------------------------------------------ a reference reading

  /** A record as a sender lays it out. */
  datatype Record = Record(tag: seq<byte>, payload: seq<byte>)

  predicate WellFormed(r: Record) {
    |r.tag| == 4 && |r.payload| < 0x1_0000_0000
  }

  function Encode(r: Record): (e: seq<byte>)
    requires WellFormed(r)
    ensures |e| == 8 + |r.payload|
  {
    r.tag + EncodeUInt32BE(|r.payload|) + r.payload
  }

  function EncodeAll(rs: seq<Record>): seq<byte>
    requires forall k :: 0 <= k < |rs| ==> WellFormed(rs[k])
  {
    if |rs| == 0 then [] else Encode(rs[0]) + EncodeAll(rs[1..])
  }

  /** What the records mean, record by record: an empty payload or a tag outside
      DMAP_TYPES adds nothing, any other record sets its tag to its decoded value. */
  function Interpret(rs: seq<Record>, out: Metadata): Option<Metadata> {
    if |rs| == 0 then Some(out)
    else
      var step := Absorb(out, TagName(rs[0].tag), |rs[0].payload|, rs[0].payload);
      if step.None? then None else Interpret(rs[1..], step.value)
  }

  /** Record `r` sets the entry `k`: its tag names `k`, DMAP_TYPES knows `k`, and its
      payload is not empty. */
  predicate Sets(r: Record, k: string) {
    TagName(r.tag) == k && |r.payload| != 0 && TypeOf(k).Some?
  }

  /** Later records win: after reading the records, `k` has an entry exactly when it had one
      before or some record sets it; the entry is the decoded payload of the last record
      that sets it, and stays as it was when none does. */
  lemma {:induction false} InterpretLastWins(rs: seq<Record>, out: Metadata, k: string)
    requires Interpret(rs, out).Some?
    ensures var m := Interpret(rs, out).value;
      k in m <==> k in out || exists i :: 0 <= i < |rs| && Sets(rs[i], k)
    ensures forall i :: 0 <= i < |rs| && Sets(rs[i], k) && (forall j :: i < j < |rs| ==> !Sets(rs[j], k)) ==>
      Decode(TypeOf(k).value, rs[i].payload) == Some(Interpret(rs, out).value[k])
    ensures (forall i :: 0 <= i < |rs| ==> !Sets(rs[i], k)) && k in out ==> Interpret(rs, out).value[k] == out[k]
    decreases |rs|
  {
    if |rs| > 0 {
      var r := rs[0];
      var out' := Absorb(out, TagName(r.tag), |r.payload|, r.payload).value;
      var m := Interpret(rs, out).value;
      assert Interpret(rs[1..], out').value == m;
      InterpretLastWins(rs[1..], out', k);
      assert k in out' <==> k in out || Sets(r, k);
      assert Sets(r, k) ==> Decode(TypeOf(k).value, r.payload) == Some(out'[k]);
      assert !Sets(r, k) && k in out ==> out'[k] == out[k];
      if exists i :: 0 <= i < |rs| && Sets(rs[i], k) {
        var i :| 0 <= i < |rs| && Sets(rs[i], k);
        if i > 0 {
          assert rs[1..][i - 1] == rs[i];
        }
      }
      forall i | 1 <= i < |rs| && Sets(rs[1..][i - 1], k)
        ensures Sets(rs[i], k)
      {
      }
      forall i | 0 <= i < |rs| && Sets(rs[i], k) && (forall j :: i < j < |rs| ==> !Sets(rs[j], k))
        ensures Decode(TypeOf(k).value, rs[i].payload) == Some(m[k])
      {
        if i == 0 {
          forall j | 0 <= j < |rs[1..]|
            ensures !Sets(rs[1..][j], k)
          {
            assert rs[1..][j] == rs[j + 1];
          }
        } else {
          assert rs[1..][i - 1] == rs[i];
          forall j | i - 1 < j < |rs[1..]|
            ensures !Sets(rs[1..][j], k)
          {
            assert rs[1..][j] == rs[j + 1];
          }
        }
      }
      if (forall i :: 0 <= i < |rs| ==> !Sets(rs[i], k)) && k in out {
        forall j | 0 <= j < |rs[1..]|
          ensures !Sets(rs[1..][j], k)
        {
          assert rs[1..][j] == rs[j + 1];
        }
      }
    }
  }

  /** One record as the walk sees it inside a longer buffer. */
  lemma RecordAt(prefix: seq<byte>, r: Record, rest: seq<byte>)
    requires WellFormed(r)
    ensures var buf := prefix + Encode(r) + rest; var i := |prefix|;
      i + 8 <= |buf| && buf[i..i + 4] == r.tag && ReadUInt32BE(buf, i + 4) == |r.payload|
      && buf[i + 8..Min(i + 8 + |r.payload|, |buf|)] == r.payload
  {
    var buf := prefix + Encode(r) + rest;
    assert buf == (prefix + r.tag) + EncodeUInt32BE(|r.payload|) + (r.payload + rest);
    ReadEncode32(|r.payload|, prefix + r.tag, r.payload + rest);
  }

  /** The walk reads back exactly the records a sender wrote, in order, whatever the header. */
  lemma {:induction false} WalkReadsRecords(prefix: seq<byte>, rs: seq<Record>, out: Metadata)
    requires forall k :: 0 <= k < |rs| ==> WellFormed(rs[k])
    ensures WalkFrom(prefix + EncodeAll(rs), |prefix|, out) == Interpret(rs, out)
    decreases |rs|
  {
    var buf := prefix + EncodeAll(rs);
    if |rs| == 0 {
      assert buf == prefix;
    } else {
      var r := rs[0];
      var rest := EncodeAll(rs[1..]);
      assert buf == prefix + Encode(r) + rest;
      RecordAt(prefix, r, rest);
      var step := Absorb(out, TagName(r.tag), |r.payload|, r.payload);
      assert WalkFrom(buf, |prefix|, out) == if step.None? then None else WalkFrom(buf, |prefix| + 8 + |r.payload|, step.value);
      if step.Some? {
        assert buf == (prefix + Encode(r)) + rest;
        WalkReadsRecords(prefix + Encode(r), rs[1..], step.value);
      }
    }
  }

  /** Integer records decode to the value encoded big-endian in their first 1, 2 or 4 bytes. */
  lemma DecodeIntegers(n: nat, extra: seq<byte>)
    ensures n < 0x100 ==> Decode(UInt8, [n] + extra) == Some(Num(n))
    ensures n < 0x1_0000 ==> Decode(UInt16, EncodeUInt16BE(n) + extra) == Some(Num(n))
    ensures n < 0x1_0000_0000 ==> Decode(UInt32, EncodeUInt32BE(n) + extra) == Some(Num(n))
  {
    if n < 0x1_0000 { ReadEncode16(n, [], extra); assert [] + EncodeUInt16BE(n) + extra == EncodeUInt16BE(n) + extra; }
    if n < 0x1_0000_0000 { ReadEncode32(n, [], extra); assert [] + EncodeUInt32BE(n) + extra == EncodeUInt32BE(n) + extra; }
  }

  /** `mper` is not the 64-bit join of its halves: the high half is shifted by 8 bits within
      32-bit arithmetic, so the halves (1, 0) read as 256 and not 2^32, and (2^23, 0) reads
      as a negative number. */
  lemma MperIsNotJoin()
    ensures Decode(Mper, EncodeUInt32BE(1) + EncodeUInt32BE(0)) == Some(Num(256))
    ensures Decode(Mper, EncodeUInt32BE(0x80_0000) + EncodeUInt32BE(0)) == Some(Num(-0x8000_0000))
  {
    ReadEncode32(1, [], EncodeUInt32BE(0));
    assert [] + EncodeUInt32BE(1) + EncodeUInt32BE(0) == EncodeUInt32BE(1) + EncodeUInt32BE(0);
    ReadEncode32(0, EncodeUInt32BE(1), []);
    assert EncodeUInt32BE(1) + EncodeUInt32BE(0) + [] == EncodeUInt32BE(1) + EncodeUInt32BE(0);
    ReadEncode32(0x80_0000, [], EncodeUInt32BE(0));
    assert [] + EncodeUInt32BE(0x80_0000) + EncodeUInt32BE(0) == EncodeUInt32BE(0x80_0000) + EncodeUInt32BE(0);
    ReadEncode32(0, EncodeUInt32BE(0x80_0000), []);
    assert EncodeUInt32BE(0x80_0000) + EncodeUInt32BE(0) + [] == EncodeUInt32BE(0x80_0000) + EncodeUInt32BE(0);
  }
}
