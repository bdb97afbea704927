/** The encoder the broker runs (internal/amqp/application/encoder.go), proved to write `Wire`. */
module Encoding {
  import opened Wrappers
  import opened Bytes
  import opened Values

  /** What encoding a value comes to: its wire form, or the first obstacle in it. */
  function Encoded(v: Value): Result<bytes, CodecError> {
    if Problem(v).Some? then Err(Problem(v).value) else Ok(Wire(v))
  }

  function EncodeBytes(short: byte, long: byte, v: bytes): (w: bytes)
    ensures w == WireBytes(short, long, v)
  {
    if |v| <= 255 then [short, |v|] + v
    else
      var out := [long] + PutU32(|v| % TWO_32);
      out + v
  }

  method EncodeValue(v: Value) returns (r: Result<bytes, CodecError>)
    ensures r == Encoded(v)
    decreases v, 1
  {
    match v
    case Null => r := Ok([0x40]);
    case Bool(flag) =>
      if flag {
        return Ok([0x41]);
      }
      r := Ok([0x42]);
    case Ubyte(n) => r := Ok([0x50, n]);
    case Ushort(n) => r := Ok([0x60] + PutU16(n));
    case Uint(n) =>
      if n == 0 {
        return Ok([0x43]);
      }
      if n < 256 {
        return Ok([0x52, n]);
      }
      r := Ok([0x70] + PutU32(n));
    case Ulong(n) =>
      if n == 0 {
        return Ok([0x44]);
      }
      if n < 256 {
        return Ok([0x53, n]);
      }
      r := Ok([0x80] + PutU64(n));
    case Str(s) => r := Ok(EncodeBytes(0xa1, 0xb1, s));
    case Symbol(s) => r := Ok(EncodeBytes(0xa3, 0xb3, s));
    case Binary(s) => r := Ok(EncodeBytes(0xa0, 0xb0, s));
    case List(items) => r := EncodeList(items);
    case Described(d, x) =>
      var inner :- EncodeValue(x);
      r := Ok([0x00, 0x53, d] + inner);
    case Undescribed => r := Err(MissingDescriptor);
    case Foreign => r := Err(CannotEncode);
  }

  lemma {:induction false} NextItem(fields: seq<Value>, i: nat)
    requires i < |fields|
    ensures WireItems(fields[i..]) == Wire(fields[i]) + WireItems(fields[i + 1..])
    ensures ProblemIn(fields[i..]) ==
            if Problem(fields[i]).Some? then Problem(fields[i]) else ProblemIn(fields[i + 1..])
  {
    assert fields[i..][0] == fields[i] && fields[i..][1..] == fields[i + 1..];
  }

  method EncodeList(fields: seq<Value>) returns (r: Result<bytes, CodecError>)
    ensures r == Encoded(List(fields))
    decreases fields, 0
  {
    if |fields| == 0 {
      return Ok([0x45]);
    }
    var payload: bytes := [];
    for i := 0 to |fields|
      invariant payload + WireItems(fields[i..]) == WireItems(fields)
      invariant ProblemIn(fields[i..]) == Problem(List(fields))
    {
      NextItem(fields, i);
      var b :- EncodeValue(fields[i]);
      payload := payload + b;
    }
    assert payload == WireItems(fields) && Encoded(List(fields)) == Ok(WireList(|fields|, payload)) by {
      assert fields[|fields|..] == [];
    }
    if |payload| + 1 <= 255 && |fields| <= 255 {
      return Ok([0xc0, |payload| + 1, |fields|] + payload);
    }
    var out := [0xd0] + PutU32((|payload| + 4) % TWO_32) + PutU32(|fields| % TWO_32);
    r := Ok(out + payload);
  }

  /** Drops the nulls at the end of a field list, and nothing else. */
  method TrimNulls(v: seq<Value>) returns (r: seq<Value>)
    ensures r <= v
    ensures forall i :: |r| <= i < |v| ==> v[i] == Null
    ensures r != [] ==> r[|r| - 1] != Null
  {
    var n := |v|;
    while n > 0 && v[n - 1] == Null
      invariant 0 <= n <= |v|
      invariant forall i :: n <= i < |v| ==> v[i] == Null
    {
      n := n - 1;
    }
    r := v[..n];
  }
}
