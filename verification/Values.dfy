/**
 The AMQP 1.0 value codec as functions on byte strings: what a value looks like on the wire,
 and what a byte string means.  The encoder and decoder that the broker runs are in Encoder.dfy
 and Decoder.dfy and are proved to compute these functions.
 */
module Values {
  import opened Wrappers
  import opened Bytes

  /** The dynamic values a performative field can hold. */
  datatype Value =
    | Null
    | Bool(flag: bool)
    | Ubyte(u8: byte)
    | Ushort(u16: uint16)
    | Uint(u32: uint32)
    | Ulong(u64: uint64)
    | Str(text: bytes)
    | Symbol(name: bytes)
    | Binary(data: bytes)
    | List(items: seq<Value>)
    | Described(descriptor: byte, value: Value)
    | Undescribed    // a map that holds no byte under "descriptor"
    | Foreign        // a value of any other type

  datatype CodecError =
    | Truncated
    | UnsupportedDescriptor
    | DescriptorRange
    | UnsupportedType
    | InvalidListSize
    | ListOverrun
    | InvalidBinaryLength
    | MissingDescriptor
    | CannotEncode

  // ---------------------------------------------------------------- encoding

  function WireBytes(short: byte, long: byte, v: bytes): (w: bytes)
    ensures |w| >= |v| + 2
  {
    if |v| <= 255 then [short, |v|] + v else [long] + PutU32(|v| % TWO_32) + v
  }

  function WireList(count: nat, payload: bytes): (w: bytes)
    ensures |w| >= 1
  {
    if count == 0 then [0x45]
    else if |payload| + 1 <= 255 && count <= 255 then [0xc0, |payload| + 1, count] + payload
    else [0xd0] + PutU32((|payload| + 4) % TWO_32) + PutU32(count % TWO_32) + payload
  }

  function Wire(v: Value): (w: bytes)
    ensures |w| >= 1
    decreases v, 1
  {
    match v
    case Null => [0x40]
    case Bool(flag) => if flag then [0x41] else [0x42]
    case Ubyte(n) => [0x50, n]
    case Ushort(n) => [0x60] + PutU16(n)
    case Uint(n) => if n == 0 then [0x43] else if n < 256 then [0x52, n] else [0x70] + PutU32(n)
    case Ulong(n) => if n == 0 then [0x44] else if n < 256 then [0x53, n] else [0x80] + PutU64(n)
    case Str(s) => WireBytes(0xa1, 0xb1, s)
    case Symbol(s) => WireBytes(0xa3, 0xb3, s)
    case Binary(s) => WireBytes(0xa0, 0xb0, s)
    case List(items) => WireList(|items|, WireItems(items))
    case Described(d, x) => [0x00, 0x53, d] + Wire(x)
    case Undescribed => [0x40]  // never sent: see Problem
    case Foreign => [0x40]      // never sent: see Problem
  }

  function WireItems(items: seq<Value>): (w: bytes)
    ensures |w| >= |items|
    decreases items, 0
  {
    if items == [] then [] else Wire(items[0]) + WireItems(items[1..])
  }

  /** The first obstacle the encoder meets, walking the value from left to right. */
  function Problem(v: Value): Option<CodecError>
    decreases v, 1
  {
    match v
    case List(items) => ProblemIn(items)
    case Described(_, x) => Problem(x)
    case Undescribed => Some(MissingDescriptor)
    case Foreign => Some(CannotEncode)
    case _ => None
  }

  function ProblemIn(items: seq<Value>): Option<CodecError>
    decreases items, 0
  {
    if items == [] then None
    else if Problem(items[0]).Some? then Problem(items[0])
    else ProblemIn(items[1..])
  }

  // ---------------------------------------------------------------- decoding

  /** A value and the number of bytes it took up. */
  datatype Decoded = Decoded(value: Value, n: nat)

  /** Several values in a row and the number of bytes they took up. */
  datatype DecodedItems = DecodedItems(items: seq<Value>, n: nat)

  /** Number of bytes after the constructor of a fixed-width value; -1 for the other constructors. */
  function Width(code: byte): (w: int)
    ensures -1 <= w <= 8
  {
    if 0x40 <= code <= 0x45 then 0
    else if code == 0x50 || code == 0x52 || code == 0x53 || code == 0x56 then 1
    else if code == 0x60 then 2
    else if code == 0x70 then 4
    else if code == 0x80 then 8
    else -1
  }

  function ScalarOf(code: byte, b: bytes): Value
    requires 0 <= Width(code) <= |b|
  {
    if code == 0x40 then Null
    else if code == 0x41 then Bool(true)
    else if code == 0x42 then Bool(false)
    else if code == 0x43 then Uint(0)
    else if code == 0x44 then Ulong(0)
    else if code == 0x45 then List([])
    else if code == 0x50 then Ubyte(b[0])
    else if code == 0x52 then Uint(b[0])
    else if code == 0x53 then Ulong(b[0])
    else if code == 0x56 then Bool(b[0] != 0)
    else if code == 0x60 then Ushort(GetU16(b))
    else if code == 0x70 then Uint(GetU32(b))
    else Ulong(GetU64(b))
  }

  predicate IsShortBytes(code: byte) {
    code == 0xa0 || code == 0xa1 || code == 0xa3
  }

  predicate IsLongBytes(code: byte) {
    code == 0xb0 || code == 0xb1 || code == 0xb3
  }

  function BytesOf(code: byte, v: bytes): Value {
    if code == 0xa0 || code == 0xb0 then Binary(v) else if code == 0xa1 || code == 0xb1 then Str(v) else Symbol(v)
  }

  function DecodeBinary8(b: bytes): (r: Result<bytes, CodecError>)
    ensures r.Ok? ==> 1 + |r.value| <= |b| && |r.value| <= 255
  {
    if |b| < 1 || |b| - 1 < b[0] then Err(Truncated) else Ok(b[1..1 + b[0]])
  }

  function DecodeBinary32(b: bytes): (r: Result<bytes, CodecError>)
    ensures r.Ok? ==> 4 + |r.value| <= |b| && |r.value| < TWO_32
  {
    if |b| < 4 then Err(Truncated)
    else if |b| - 4 < GetU32(b) then Err(InvalidBinaryLength)
    else Ok(b[4..4 + GetU32(b)])
  }

  /** A descriptor and the number of bytes it took up. */
  function DecodeDescriptor(b: bytes): (r: Result<(byte, nat), CodecError>)
    ensures r.Ok? ==> 2 <= r.value.1 <= |b|
  {
    if |b| < 1 then Err(Truncated)
    else if b[0] == 0x53 then if |b| < 2 then Err(Truncated) else Ok((b[1], 2))
    else if b[0] == 0x70 then
      if |b| < 5 then Err(Truncated)
      else if GetU32(b[1..]) > 255 then Err(DescriptorRange)
      else Ok((GetU32(b[1..]), 5))
    else Err(UnsupportedDescriptor)
  }

  function Decode(b: bytes): (r: Result<Decoded, CodecError>)
    ensures r.Ok? ==> 1 <= r.value.n <= |b|
    decreases |b|, 0
  {
    if b == [] then Err(Truncated)
    else if 0 <= Width(b[0]) then
      if |b| - 1 < Width(b[0]) then Err(Truncated)
      else Ok(Decoded(ScalarOf(b[0], b[1..]), 1 + Width(b[0])))
    else if IsShortBytes(b[0]) then
      var v :- DecodeBinary8(b[1..]);
      Ok(Decoded(BytesOf(b[0], v), 2 + |v|))
    else if IsLongBytes(b[0]) then
      var v :- DecodeBinary32(b[1..]);
      Ok(Decoded(BytesOf(b[0], v), 5 + |v|))
    else if b[0] == 0xc0 then
      if |b| < 3 then Err(Truncated) else DecodeList(b, 3, b[1] as int - 1, b[2])
    else if b[0] == 0xd0 then
      if |b| < 9 then Err(Truncated) else DecodeList(b, 9, GetU32(b[1..]) as int - 4, GetU32(b[5..]))
    else if b[0] == 0x00 then
      var d :- DecodeDescriptor(b[1..]);
      var x :- Decode(b[1 + d.1..]);
      Ok(Decoded(Described(d.0, x.value), 1 + d.1 + x.n))
    else Err(UnsupportedType)
  }

  /** A list with a header of `head` bytes that announces `count` items in `space` bytes. */
  function DecodeList(b: bytes, head: nat, space: int, count: nat): (r: Result<Decoded, CodecError>)
    requires 0 < head <= |b|
    ensures r.Ok? ==> 1 <= r.value.n <= |b|
    decreases |b| - head, 2
  {
    if space < 0 || |b| - head < space then Err(InvalidListSize)
    else
      var d :- DecodeItems(b[head..], count);
      if d.n > space then Err(ListOverrun) else Ok(Decoded(List(d.items), head + space))
  }

  function DecodeItems(b: bytes, count: nat): (r: Result<DecodedItems, CodecError>)
    ensures r.Ok? ==> count <= r.value.n <= |b| && |r.value.items| == count
    decreases |b|, 1
  {
    if count == 0 then Ok(DecodedItems([], 0))
    else
      var x :- Decode(b);
      var d :- DecodeItems(b[x.n..], count - 1);
      Ok(DecodedItems([x.value] + d.items, x.n + d.n))
  }
}
