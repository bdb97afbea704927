/** AMQP performatives: a descriptor and a list of fields, with trailing nulls left off the wire. */
module Performatives {
  import opened Wrappers
  import opened Bytes
  import opened Values
  import opened ValueLaws
  import opened Encoding
  import opened Decoding

  datatype Performative = Performative(descriptor: byte, fields: seq<Value>) {

    function Field(i: int): Value {
      if i < 0 || i >= |fields| then Null else fields[i]
    }

    function StringAt(i: int): bytes {
      match Field(i)
      case Str(s) => s
      case Symbol(s) => s
      case _ => []
    }

    function UintAt(i: int): uint32 {
      match Field(i)
      case Uint(n) => n
      case Ushort(n) => n
      case Ubyte(n) => n
      case Ulong(n) => n % TWO_32
      case _ => 0
    }

    function BoolAt(i: int): bool {
      Field(i) == Bool(true)
    }

    function BinaryAt(i: int): bytes {
      match Field(i)
      case Binary(b) => b
      case _ => []
    }
  }

  datatype PerformativeError =
    | Codec(error: CodecError)
    | NotDescribed
    | NotList
    | UnknownDescriptor
    | TooFewFields
    | ContainerIdRequired
    | NameRequired
    | HandleRequired

  const OPEN: byte := 0x10
  const ATTACH: byte := 0x12
  const TRANSFER: byte := 0x14

  /** The least number of fields a performative must carry; -1 for an unknown descriptor. */
  function MinFields(descriptor: byte): int {
    match descriptor
    case 0x10 => 1  // open
    case 0x11 => 0  // begin
    case 0x12 => 3  // attach
    case 0x13 => 0  // flow
    case 0x14 => 1  // transfer
    case 0x15 => 2  // disposition
    case 0x16 => 1  // detach
    case 0x17 => 0  // end
    case 0x18 => 0  // close
    case 0x40 => 1  // sasl-mechanisms
    case 0x41 => 1  // sasl-init
    case 0x42 => 1  // sasl-challenge
    case 0x43 => 1  // sasl-response
    case 0x44 => 1  // sasl-outcome
    case _ => -1
  }

  function Validate(p: Performative): Option<PerformativeError> {
    if MinFields(p.descriptor) < 0 then Some(UnknownDescriptor)
    else if |p.fields| < MinFields(p.descriptor) then Some(TooFewFields)
    else if p.descriptor == OPEN && p.StringAt(0) == [] then Some(ContainerIdRequired)
    else if p.descriptor == ATTACH && p.StringAt(0) == [] then Some(NameRequired)
    else if p.descriptor == TRANSFER && p.Field(0) == Null then Some(HandleRequired)
    else None
  }

  /** The field list without the nulls at its end. */
  function Trim(fields: seq<Value>): (r: seq<Value>)
    ensures r <= fields
    ensures forall i :: |r| <= i < |fields| ==> fields[i] == Null
    ensures r != [] ==> r[|r| - 1] != Null
  {
    if fields != [] && fields[|fields| - 1] == Null then Trim(fields[..|fields| - 1]) else fields
  }

  function EncodedPerformative(p: Performative): Result<bytes, PerformativeError> {
    if Validate(p).Some? then Err(Validate(p).value)
    else match Encoded(List(Trim(p.fields)))
      case Err(e) => Err(Codec(e))
      case Ok(list) => Ok([0x00, 0x53, p.descriptor] + list)
  }

  /** A performative and the number of bytes it took up. */
  function DecodedPerformative(b: bytes): (r: Result<(Performative, nat), PerformativeError>)
    ensures r.Ok? ==> r.value.1 <= |b|
  {
    if |b| < 3 then Err(Codec(Truncated))
    else if b[0] != 0x00 then Err(NotDescribed)
    else match DecodeDescriptor(b[1..])
      case Err(e) => Err(Codec(e))
      case Ok(d) =>
        match Decode(b[1 + d.1..])
        case Err(e) => Err(Codec(e))
        case Ok(x) => Accepted(d.0, x.value, 1 + d.1 + x.n)
  }

  /** A described value as a performative: it must hold a list and be valid. */
  function Accepted(descriptor: byte, v: Value, n: nat): (r: Result<(Performative, nat), PerformativeError>)
    ensures r.Ok? ==> r.value.1 == n
  {
    if !v.List? then Err(NotList)
    else
      var p := Performative(descriptor, v.items);
      if Validate(p).Some? then Err(Validate(p).value) else Ok((p, n))
  }

  method EncodePerformative(p: Performative) returns (r: Result<bytes, PerformativeError>)
    ensures r == EncodedPerformative(p)
  {
    if Validate(p).Some? {
      return Err(Validate(p).value);
    }
    var fields := TrimNulls(p.fields);
    TrimUnique(p.fields, fields);
    var list := EncodeList(fields);
    if list.Err? {
      return Err(Codec(list.error));
    }
    var out := [0x00, 0x53, p.descriptor];
    r := Ok(out + list.value);
  }

  method DecodePerformative(data: bytes) returns (r: Result<(Performative, nat), PerformativeError>)
    ensures r == DecodedPerformative(data)
  {
    hide Decode, DecodeDescriptor, Accepted;
    var d := new Decoder(data);
    if d.Remaining() < 3 {
      return Err(Codec(Truncated));
    }
    var first := d.Byte();
    if first != 0x00 {
      return Err(NotDescribed);
    }
    ghost var code := DecodeDescriptor(data[1..]);
    assert d.Rest() == data[1..];
    var descriptor := d.Descriptor();
    if descriptor.Err? {
      return Err(Codec(descriptor.error));
    }
    assert code == Ok((descriptor.value, code.value.1)) && d.Rest() == data[1 + code.value.1..];
    var value := d.Value();
    if value.Err? {
      return Err(Codec(value.error));
    }
    r := Accepted(descriptor.value, value.value, d.pos);
  }

  /** Trim is the only prefix that drops nulls at the end and nothing else. */
  lemma {:induction false} TrimUnique(fields: seq<Value>, r: seq<Value>)
    requires r <= fields
    requires forall i :: |r| <= i < |fields| ==> fields[i] == Null
    requires r != [] ==> r[|r| - 1] != Null
    ensures r == Trim(fields)
  {
    if |r| < |fields| {
      var shorter := fields[..|fields| - 1];
      assert fields[|fields| - 1] == Null;
      TrimUnique(shorter, r);
    } else if fields != [] {
      assert r == fields;
    }
  }

  /** Trimming changes no field, so it can only make a valid performative fail on its field count. */
  lemma {:induction false} TrimKeepsMeaning(p: Performative)
    ensures var q := Performative(p.descriptor, Trim(p.fields));
            && (forall i :: q.Field(i) == p.Field(i))
            && (Validate(p).None? ==>
                  Validate(q) == if |q.fields| < MinFields(p.descriptor) then Some(TooFewFields) else None)
  {
    var q := Performative(p.descriptor, Trim(p.fields));
    forall i
      ensures q.Field(i) == p.Field(i)
    {
      if 0 <= i < |q.fields| {
        assert q.fields[i] == p.fields[..|q.fields|][i];
      }
    }
  }

  /**
   What survives the wire: decoding an encoded performative succeeds exactly when the trimmed
   field list still meets the descriptor's minimum; then it has the same descriptor and the same
   field at every index, and takes exactly the encoded bytes.
   */
  lemma {:induction false} PerformativeRoundTrip(p: Performative, tail: bytes)
    requires EncodedPerformative(p).Ok? && Fits(List(Trim(p.fields)))
    ensures var w := EncodedPerformative(p).value;
            var q := Performative(p.descriptor, Trim(p.fields));
            && DecodedPerformative(w + tail) ==
               (if |q.fields| < MinFields(p.descriptor) then Err(TooFewFields) else Ok((q, |w|)))
            && (forall i :: q.Field(i) == p.Field(i))
  {
    hide Decode, Wire;
    var list := List(Trim(p.fields));
    var w := EncodedPerformative(p).value;
    TrimKeepsMeaning(p);
    ValueRoundTrip(list, tail);
    var b := w + tail;
    assert b[1..][0] == 0x53 && b[1..][1] == p.descriptor;
    assert b[3..] == Wire(list) + tail;
  }

  /**
   For every valid, encodable performative: it comes back whole exactly when its encoded length
   fits the 32-bit list header and its trimmed field list still meets the minimum.
   */
  lemma {:induction false} PerformativeReturnsExactlyWhen(p: Performative, tail: bytes)
    requires EncodedPerformative(p).Ok?
    ensures var w := EncodedPerformative(p).value;
            var q := Performative(p.descriptor, Trim(p.fields));
            DecodedPerformative(w + tail) == Ok((q, |w|))
            <==> Fits(List(q.fields)) && |q.fields| >= MinFields(p.descriptor)
  {
    hide Decode, Wire;
    var list := List(Trim(p.fields));
    var b := EncodedPerformative(p).value + tail;
    if Fits(list) {
      PerformativeRoundTrip(p, tail);
    } else {
      RoundTripExactlyWhenFits(list, tail);
      assert b[1..][0] == 0x53 && b[1..][1] == p.descriptor;
      assert b[3..] == Wire(list) + tail;
    }
  }

  /** Every accessor reads the same from the decoded performative as from the one sent. */
  lemma {:induction false} AccessorsAgree(p: Performative, q: Performative, i: int)
    requires forall j :: q.Field(j) == p.Field(j)
    ensures q.StringAt(i) == p.StringAt(i) && q.UintAt(i) == p.UintAt(i)
    ensures q.BoolAt(i) == p.BoolAt(i) && q.BinaryAt(i) == p.BinaryAt(i)
  {
    assert q.Field(i) == p.Field(i);
  }

  /** The field is a string or a symbol that is not empty. */
  predicate IsText(v: Value) {
    (v.Str? && v.text != []) || (v.Symbol? && v.name != [])
  }

  /** Which performatives are valid, one by one. */
  lemma {:induction false} ValidExactlyWhen(p: Performative)
    ensures Validate(p).None? <==>
            || (p.descriptor == 0x10 && |p.fields| >= 1 && IsText(p.fields[0]))
            || (p.descriptor == 0x12 && |p.fields| >= 3 && IsText(p.fields[0]))
            || (p.descriptor == 0x14 && |p.fields| >= 1 && p.fields[0] != Null)
            || (p.descriptor == 0x15 && |p.fields| >= 2)
            || (p.descriptor in [0x16, 0x40, 0x41, 0x42, 0x43, 0x44] && |p.fields| >= 1)
            || p.descriptor in [0x11, 0x13, 0x17, 0x18]
  {}

  /** What each accessor makes of each type of field; beyond the fields, and of any other type, it gives the zero value. */
  lemma {:induction false} AccessorsByType(p: Performative, i: int)
    ensures !(0 <= i < |p.fields|) ==> p.StringAt(i) == [] && p.UintAt(i) == 0 && !p.BoolAt(i) && p.BinaryAt(i) == []
    ensures 0 <= i < |p.fields| ==>
              var v := p.fields[i];
              && (p.BoolAt(i) <==> v.Bool? && v.flag)
              && p.BinaryAt(i) == (if v.Binary? then v.data else [])
              && p.StringAt(i) == (if v.Str? then v.text else if v.Symbol? then v.name else [])
              && (v.Ubyte? ==> p.UintAt(i) == v.u8) && (v.Ushort? ==> p.UintAt(i) == v.u16)
              && (v.Uint? ==> p.UintAt(i) == v.u32) && (v.Ulong? && v.u64 < TWO_32 ==> p.UintAt(i) == v.u64)
              && (v.Ulong? ==> (v.u64 - p.UintAt(i)) % TWO_32 == 0)
              && (!(v.Ubyte? || v.Ushort? || v.Uint? || v.Ulong?) ==> p.UintAt(i) == 0)
  {}
}
