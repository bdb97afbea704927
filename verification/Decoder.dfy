/** The cursor-based decoder the broker runs (internal/amqp/application/decoder.go), proved to compute `Decode`. */
module Decoding {
  import opened Wrappers
  import opened Bytes
  import opened Values

  /** Several decoded items put in front of the outcome of decoding the rest. */
  function Prepend(front: seq<Value>, n: nat, r: Result<DecodedItems, CodecError>): Result<DecodedItems, CodecError> {
    if r.Err? then r else Ok(DecodedItems(front + r.value.items, n + r.value.n))
  }

  lemma {:induction false} PrependNothing(r: Result<DecodedItems, CodecError>)
    ensures Prepend([], 0, r) == r
  {
    if r.Ok? {
      assert [] + r.value.items == r.value.items;
    }
  }

  lemma {:induction false} PrependToLast(front: seq<Value>, n: nat, b: bytes)
    ensures Prepend(front, n, DecodeItems(b, 0)) == Ok(DecodedItems(front, n))
  {
    assert front + [] == front;
  }

  lemma {:induction false} PrependNext(front: seq<Value>, n: nat, b: bytes, count: nat)
    requires count > 0
    ensures match Decode(b)
            case Err(e) => Prepend(front, n, DecodeItems(b, count)) == Err(e)
            case Ok(x) => Prepend(front, n, DecodeItems(b, count))
                          == Prepend(front + [x.value], n + x.n, DecodeItems(b[x.n..], count - 1))
  {
    hide Decode, DecodeList;
    if Decode(b).Ok? {
      var x := Decode(b).value;
      var rest := DecodeItems(b[x.n..], count - 1);
      if rest.Ok? {
        assert front + ([x.value] + rest.value.items) == front + [x.value] + rest.value.items;
      }
    }
  }

  class Decoder {
    const data: bytes
    var pos: nat

    ghost predicate Valid()
      reads this
    {
      pos <= |data|
    }

    /** The input that is still to be read. */
    ghost function Rest(): bytes
      reads this
      requires Valid()
    {
      data[pos..]
    }

    constructor (data: bytes)
      ensures this.data == data && Valid() && pos == 0
    {
      this.data := data;
      this.pos := 0;
    }

    function Remaining(): nat
      reads this
      requires Valid()
    {
      |data| - pos
    }

    method Byte() returns (v: byte)
      requires Valid() && Remaining() >= 1
      modifies this
      ensures Valid() && pos == old(pos) + 1 && v == old(Rest())[0] && Rest() == old(Rest())[1..]
    {
      v := data[pos];
      pos := pos + 1;
    }

    method TakeU16() returns (v: uint16)
      requires Valid() && Remaining() >= 2
      modifies this
      ensures Valid() && pos == old(pos) + 2 && v == GetU16(old(Rest())) && Rest() == old(Rest())[2..]
    {
      v := GetU16(data[pos..]);
      pos := pos + 2;
    }

    method TakeU32() returns (v: uint32)
      requires Valid() && Remaining() >= 4
      modifies this
      ensures Valid() && pos == old(pos) + 4 && v == GetU32(old(Rest())) && Rest() == old(Rest())[4..]
    {
      v := GetU32(data[pos..]);
      pos := pos + 4;
    }

    method TakeU64() returns (v: uint64)
      requires Valid() && Remaining() >= 8
      modifies this
      ensures Valid() && pos == old(pos) + 8 && v == GetU64(old(Rest())) && Rest() == old(Rest())[8..]
    {
      v := GetU64(data[pos..]);
      pos := pos + 8;
    }

    method Binary8() returns (r: Result<bytes, CodecError>)
      requires Valid()
      modifies this
      ensures Valid() && r == DecodeBinary8(old(Rest()))
      ensures r.Ok? ==> pos == old(pos) + 1 + |r.value|
    {
      if Remaining() < 1 {
        return Err(Truncated);
      }
      var n := Byte();
      if Remaining() < n {
        return Err(Truncated);
      }
      var v := data[pos..pos + n];
      assert v == old(Rest())[1..1 + n];
      pos := pos + n;
      r := Ok(v);
    }

    method Binary32() returns (r: Result<bytes, CodecError>)
      requires Valid()
      modifies this
      ensures Valid() && r == DecodeBinary32(old(Rest()))
      ensures r.Ok? ==> pos == old(pos) + 4 + |r.value|
    {
      if Remaining() < 4 {
        return Err(Truncated);
      }
      var n := TakeU32();
      if n > Remaining() {
        return Err(InvalidBinaryLength);
      }
      var v := data[pos..pos + n];
      assert v == old(Rest())[4..4 + n];
      pos := pos + n;
      r := Ok(v);
    }

    method Descriptor() returns (r: Result<byte, CodecError>)
      requires Valid()
      modifies this
      ensures Valid()
      ensures match DecodeDescriptor(old(Rest()))
              case Ok(d) => r == Ok(d.0) && pos == old(pos) + d.1
              case Err(e) => r == Err(e)
    {
      if Remaining() < 1 {
        return Err(Truncated);
      }
      var code := Byte();
      if code == 0x53 {
        if Remaining() < 1 {
          return Err(Truncated);
        }
        var d := Byte();
        return Ok(d);
      } else if code == 0x70 {
        if Remaining() < 4 {
          return Err(Truncated);
        }
        var v := TakeU32();
        if v > 255 {
          return Err(DescriptorRange);
        }
        return Ok(v);
      } else {
        return Err(UnsupportedDescriptor);
      }
    }

    /** The constructors that are followed by a fixed number of bytes. */
    method Scalar(code: byte) returns (r: Result<Value, CodecError>)
      requires Valid() && Width(code) >= 0
      modifies this
      ensures Valid()
      ensures if old(Remaining()) < Width(code) then r == Err(Truncated)
              else r == Ok(ScalarOf(code, old(Rest()))) && pos == old(pos) + Width(code)
    {
      match code
      case 0x40 => return Ok(Null);
      case 0x41 => return Ok(Bool(true));
      case 0x42 => return Ok(Bool(false));
      case 0x43 => return Ok(Uint(0));
      case 0x44 => return Ok(Ulong(0));
      case 0x45 => return Ok(List([]));
      case _ =>
        if Remaining() < Width(code) {
          return Err(Truncated);
        }
        match code
        case 0x60 =>
          var n := TakeU16();
          return Ok(Ushort(n));
        case 0x70 =>
          var n := TakeU32();
          return Ok(Uint(n));
        case 0x80 =>
          var n := TakeU64();
          return Ok(Ulong(n));
        case _ =>
          var n := Byte();
          match code
          case 0x50 => return Ok(Ubyte(n));
          case 0x52 => return Ok(Uint(n));
          case 0x53 => return Ok(Ulong(n));
          case _ => return Ok(Bool(n != 0));
    }

    /** One value: total on every input, never past the end, and strictly forward on success. */
    method Value() returns (r: Result<Value, CodecError>)
      requires Valid()
      modifies this
      ensures Valid()
      ensures match Decode(old(Rest()))
              case Ok(d) => r == Ok(d.value) && pos == old(pos) + d.n
              case Err(e) => r == Err(e)
      decreases Remaining(), 0
    {
      if Remaining() < 1 {
        return Err(Truncated);
      }
      var code := Byte();
      if Width(code) >= 0 {
        r := Scalar(code);
      } else if IsShortBytes(code) {
        var v :- Binary8();
        r := Ok(BytesOf(code, v));
      } else if IsLongBytes(code) {
        var v :- Binary32();
        r := Ok(BytesOf(code, v));
      } else if code == 0xc0 {
        r := List8();
      } else if code == 0xd0 {
        r := List32();
      } else if code == 0x00 {
        ghost var start := pos;
        var d :- Descriptor();
        assert Rest() == old(Rest())[1 + (pos - start)..];
        var x :- Value();
        r := Ok(Described(d, x));
      } else {
        r := Err(UnsupportedType);
      }
    }

    method List8() returns (r: Result<Value, CodecError>)
      requires Valid() && pos > 0 && data[pos - 1] == 0xc0
      modifies this
      ensures Valid()
      ensures match Decode(data[old(pos) - 1..])
              case Ok(d) => r == Ok(d.value) && pos == old(pos) - 1 + d.n
              case Err(e) => r == Err(e)
      decreases Remaining(), 2
    {
      ghost var b := data[pos - 1..];
      if Remaining() < 2 {
        return Err(Truncated);
      }
      var size := Byte();
      var count := Byte();
      r := Items(b, 3, size as int - 1, count);
    }

    method List32() returns (r: Result<Value, CodecError>)
      requires Valid() && pos > 0 && data[pos - 1] == 0xd0
      modifies this
      ensures Valid()
      ensures match Decode(data[old(pos) - 1..])
              case Ok(d) => r == Ok(d.value) && pos == old(pos) - 1 + d.n
              case Err(e) => r == Err(e)
      decreases Remaining(), 2
    {
      ghost var b := data[pos - 1..];
      if Remaining() < 8 {
        return Err(Truncated);
      }
      var size := TakeU32();
      var count := TakeU32();
      r := Items(b, 9, size as int - 4, count);
    }

    /**
     The part list8 and list32 share, after a header of `head` bytes.  Items are read one after
     the other and checked against the announced end only after the last one.
     */
    method Items(ghost b: bytes, ghost head: nat, space: int, count: nat) returns (r: Result<Value, CodecError>)
      requires Valid() && 0 < head <= pos && b == data[pos - head..]
      modifies this
      ensures Valid()
      ensures match DecodeList(b, head, space, count)
              case Ok(d) => r == Ok(d.value) && pos == old(pos) - head + d.n
              case Err(e) => r == Err(e)
      decreases Remaining(), 1
    {
      hide Decode, DecodeItems;
      assert b[head..] == Rest();
      if space < 0 || space > Remaining() {
        return Err(InvalidListSize);
      }
      var end := pos + space;
      var out: seq<Value> := [];
      ghost var all := DecodeItems(Rest(), count);
      PrependNothing(all);
      for i := 0 to count
        invariant old(pos) <= pos <= |data|
        invariant all == Prepend(out, pos - old(pos), DecodeItems(Rest(), count - i))
      {
        ghost var before, rest := pos, Rest();
        PrependNext(out, pos - old(pos), rest, count - i);
        var v :- Value();
        assert rest[pos - before..] == Rest();
        out := out + [v];
      }
      PrependToLast(out, pos - old(pos), Rest());
      if pos > end {
        return Err(ListOverrun);
      }
      pos := end;
      r := Ok(List(out));
    }
  }
}
