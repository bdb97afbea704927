/** Frames on a byte stream: what one peer writes, the other reads back. */
module Streams {
  import opened Wrappers
  import opened Bytes
  import opened Values
  import opened ValueLaws
  import opened Forms
  import opened Encoding
  import opened Performatives
  import opened Frames

  datatype StreamError =
    | EndOfInput
    | WriteFailed
    | BadFrame(frame: FrameError)
    | BadPerformative(performative: PerformativeError)

  // ---------------------------------------------------------------- one frame

  function FrameFor(channel: uint16, p: Performative, payload: bytes): Result<Frame, PerformativeError> {
    match EncodedPerformative(p)
    case Err(e) => Err(e)
    case Ok(body) => Ok(Frame(0, 2, AMQP, channel, body + payload))
  }

  /** The first frame of the input, and the input after it. */
  function FrameAt(input: bytes, max: uint32): (r: Result<(Frame, bytes), StreamError>)
    ensures r.Ok? ==> |r.value.1| + 8 <= |input|
  {
    if |input| < 8 then Err(EndOfInput)
    else
      var size := GetU32(input);
      if size < 8 then Err(BadFrame(BelowMinimumSize))
      else if max > 0 && size > max then Err(BadFrame(ExceedsMaximum))
      else if |input| < size then Err(EndOfInput)
      else match ParseFrame(input[..size], max)
        case Err(e) => Err(BadFrame(e))
        case Ok(f) => Ok((f, input[size..]))
  }

  class Reader {
    const data: bytes
    var pos: nat

    ghost predicate Valid()
      reads this
    {
      pos <= |data|
    }

    constructor (data: bytes)
      ensures this.data == data && pos == 0
    {
      this.data := data;
      this.pos := 0;
    }

    /** io.ReadFull: exactly n bytes, or an error once the input is exhausted. */
    method ReadFull(n: nat) returns (r: Result<bytes, StreamError>)
      requires Valid()
      modifies this
      ensures Valid()
      ensures if |data| - old(pos) < n then r == Err(EndOfInput)
              else r == Ok(data[old(pos)..old(pos) + n]) && pos == old(pos) + n
    {
      if |data| - pos < n {
        pos := |data|;
        return Err(EndOfInput);
      }
      r := Ok(data[pos..pos + n]);
      pos := pos + n;
    }
  }

  method ReadFrame(reader: Reader, max: uint32) returns (r: Result<Frame, StreamError>)
    requires reader.Valid()
    modifies reader
    ensures reader.Valid()
    ensures match FrameAt(reader.data[old(reader.pos)..], max)
            case Ok(d) => r == Ok(d.0) && reader.data[reader.pos..] == d.1
            case Err(e) => r == Err(e)
  {
    hide ParseFrame, GetU32;
    ghost var input := reader.data[reader.pos..];
    var header :- reader.ReadFull(8);
    assert header == input[..8];
    AgreeGetU32(header, input);
    var size := GetU32(header);
    if size < 8 {
      return Err(BadFrame(BelowMinimumSize));
    }
    if max > 0 && size > max {
      return Err(BadFrame(ExceedsMaximum));
    }
    var rest :- reader.ReadFull(size - 8);
    var raw := header + rest;
    assert raw == input[..size];
    assert reader.data[reader.pos..] == input[size..];
    var f := ParseFrame(raw, max);
    if f.Err? {
      return Err(BadFrame(f.error));
    }
    r := Ok(f.value);
  }

  class Writer {
    var written: bytes

    constructor ()
      ensures written == []
    {
      written := [];
    }

    /** A write that takes at least one of the bytes, perhaps not all, or fails after some of them. */
    method Write(b: bytes) returns (n: nat, failed: bool)
      requires b != []
      modifies this
      ensures n <= |b| && (failed || n > 0) && written == old(written) + b[..n]
    {
      failed := *;
      if failed {
        n :| 0 <= n <= |b|;
      } else {
        n :| 1 <= n <= |b|;
      }
      written := written + b[..n];
    }
  }

  /**
   Short writes do not matter: a frame that cannot be marshalled leaves nothing behind, and otherwise
   the whole frame is written unless the writer fails, which leaves some first part of it.
   */
  method WriteFrame(out: Writer, f: Frame, max: uint32) returns (r: Result<(), StreamError>)
    modifies out
    ensures match Marshalled(f, max)
            case Err(e) => r == Err(BadFrame(e)) && out.written == old(out.written)
            case Ok(raw) =>
              || (r == Ok(()) && out.written == old(out.written) + raw)
              || (r == Err(WriteFailed) && old(out.written) <= out.written <= old(out.written) + raw)
  {
    hide Marshalled;
    var marshalled := Marshal(f, max);
    if marshalled.Err? {
      return Err(BadFrame(marshalled.error));
    }
    var raw := marshalled.value;
    ghost var all := raw;
    ghost var sent: bytes := [];
    while |raw| > 0
      invariant all == sent + raw && out.written == old(out.written) + sent
      decreases |raw|
    {
      var n, failed := out.Write(raw);
      WroteMore(old(out.written), sent, raw, n);
      sent := sent + raw[..n];
      if failed {
        return Err(WriteFailed);
      }
      raw := raw[n..];
    }
    assert sent == all;
    r := Ok(());
  }

  lemma {:induction false} WroteMore(before: bytes, sent: bytes, raw: bytes, n: nat)
    requires n <= |raw|
    ensures before + sent + raw[..n] == before + (sent + raw[..n])
    ensures sent + raw == (sent + raw[..n]) + raw[n..]
  {}

  // ---------------------------------------------------------------- the data section

  function EncodeDataSection(body: bytes): bytes {
    [0x00, 0x53, 0x75] + EncodeBytes(0xa0, 0xb0, body)
  }

  datatype SectionError = EmptyPayload | Undecodable(error: CodecError) | NotBinary

  /** Reads a data section, or takes the payload as it is when it does not start like one. */
  function DecodeDataSection(raw: bytes): Result<bytes, SectionError> {
    if raw == [] then Err(EmptyPayload)
    else if |raw| >= 3 && raw[0] == 0x00 && raw[1] == 0x53 && raw[2] == 0x75 then
      match Decode(raw[3..])
      case Err(e) => Err(Undecodable(e))
      case Ok(d) => if d.value.Binary? then Ok(d.value.data) else Err(NotBinary)
    else Ok(raw)
  }

  /** A body comes back unchanged from its data section exactly when its length fits 32 bits. */
  lemma {:induction false} DataSectionRoundTrip(body: bytes, tail: bytes)
    ensures DecodeDataSection(EncodeDataSection(body) + tail) == Ok(body) <==> |body| < TWO_32
  {
    hide Decode;
    var raw := EncodeDataSection(body) + tail;
    assert raw[3..] == WireBytes(0xa0, 0xb0, body) + tail;
    if |body| < TWO_32 {
      BytesRoundTrip(0xa0, 0xb0, body, tail);
    } else {
      WrappedBytesAreShorter(body, tail);
    }
  }

  lemma {:induction false} WrappedBytesAreShorter(body: bytes, tail: bytes)
    requires |body| >= TWO_32
    ensures match Decode(WireBytes(0xa0, 0xb0, body) + tail)
            case Ok(d) => d.value.Binary? && |d.value.data| < |body|
            case Err(_) => true
  {
    var w := WireBytes(0xa0, 0xb0, body) + tail;
    assert w[0] == 0xb0;
  }

  // ---------------------------------------------------------------- many frames

  /** A performative with its payload, on a channel. */
  datatype Item = Item(channel: uint16, performative: Performative, payload: bytes)

  /** The frame of an item within the negotiated maximum, when the performative survives trimming. */
  predicate Sendable(o: Item, max: uint32) {
    var f := FrameFor(o.channel, o.performative, o.payload);
    && f.Ok?
    && FullLength(f.value) < TWO_32
    && (max > 0 ==> FullLength(f.value) <= max)
    && |Trim(o.performative.fields)| >= MinFields(o.performative.descriptor)
  }

  /** The bytes of one item on the wire. */
  function ItemBytes(o: Item, max: uint32): (b: bytes)
    requires Sendable(o, max)
    ensures |b| >= 8
  {
    Marshalled(FrameFor(o.channel, o.performative, o.payload).value, max).value
  }

  function StreamOf(items: seq<Item>, max: uint32): bytes
    requires forall o :: o in items ==> Sendable(o, max)
  {
    if items == [] then [] else ItemBytes(items[0], max) + StreamOf(items[1..], max)
  }

  /** An item as the receiver sees it: without the nulls at the end of the field list. */
  function Received(o: Item): Item {
    o.(performative := o.performative.(fields := Trim(o.performative.fields)))
  }

  function ReceivedAll(items: seq<Item>): seq<Item> {
    if items == [] then [] else [Received(items[0])] + ReceivedAll(items[1..])
  }

  /** Reads frame after frame to the end of the input, splitting each body into performative and payload. */
  function ReadAll(input: bytes, max: uint32): Result<seq<Item>, StreamError>
    decreases |input|
  {
    if input == [] then Ok([])
    else
      var d :- FrameAt(input, max);
      match DecodedPerformative(d.0.body)
      case Err(e) => Err(BadPerformative(e))
      case Ok(p) =>
        var rest :- ReadAll(d.1, max);
        Ok([Item(d.0.channel, p.0, d.0.body[p.1..])] + rest)
  }

  /** A frame is read exactly when the input holds as many bytes as it announces and those are an accepted frame. */
  lemma {:induction false} FrameReadExactlyWhen(input: bytes, max: uint32, f: Frame, rest: bytes)
    ensures FrameAt(input, max) == Ok((f, rest)) <==>
            && |input| >= 8
            && var n := Number(input[..4]); 8 <= n <= |input| && ParseFrame(input[..n], max) == Ok(f) && rest == input[n..]
    ensures |input| >= 8 && 0 < max < Number(input[..4]) && Number(input[..4]) >= 8 ==>
              FrameAt(input, max) == Err(BadFrame(ExceedsMaximum))
  {
    hide Number, GetU32, ParseFrame;
    if |input| >= 8 {
      Number32(input);
      var n := GetU32(input);
      if 8 <= n <= |input| {
        FrameLayout(input[..n], max);
      }
    }
  }

  lemma {:induction false} FrameAtStart(f: Frame, max: uint32, tail: bytes)
    requires Marshalled(f, max).Ok? && f.kind == AMQP && f.dataOffset != 1 && FullLength(f) < TWO_32
    ensures var raw := Marshalled(f, max).value;
            FrameAt(raw + tail, max) == Ok((f.(size := |raw|, dataOffset := Offset(f)), tail))
  {
    hide Marshalled, GetU32;
    var raw := Marshalled(f, max).value;
    FrameRoundTripExactlyWhen(f, max);
    assert ParseFrame(raw, max).Ok?;
    GetU32Local(raw, tail);
    assert (raw + tail)[..|raw|] == raw && (raw + tail)[|raw|..] == tail;
  }

  lemma {:induction false} ItemRoundTrip(o: Item, max: uint32)
    requires Sendable(o, max)
    ensures var body := FrameFor(o.channel, o.performative, o.payload).value.body;
            var p := DecodedPerformative(body);
            p.Ok? && Item(o.channel, p.value.0, body[p.value.1..]) == Received(o)
  {
    hide DecodedPerformative, Trim, Wire, WireItems;
    var p := o.performative;
    var w := EncodedPerformative(p).value;
    assert w == [0x00, 0x53, p.descriptor] + Wire(List(Trim(p.fields)));
    ShortFits(List(Trim(p.fields)));
    PerformativeRoundTrip(p, o.payload);
    assert (w + o.payload)[|w|..] == o.payload;
  }

  /**
   Everything sent is received, in order and with nothing left over: the frames of any items, one
   after the other, read back as the same channels, performatives (without trailing nulls) and
   payloads.
   */
  lemma {:induction false} StreamRoundTrip(items: seq<Item>, max: uint32)
    requires forall o :: o in items ==> Sendable(o, max)
    ensures ReadAll(StreamOf(items, max), max) == Ok(ReceivedAll(items))
  {
    hide FrameAt, DecodedPerformative, Marshalled, Received, Sendable;
    if items != [] {
      var o := items[0];
      SendableFrame(o, max);
      var f := FrameFor(o.channel, o.performative, o.payload).value;
      var tail := StreamOf(items[1..], max);
      FrameAtStart(f, max, tail);
      ItemRoundTrip(o, max);
      StreamRoundTrip(items[1..], max);
    }
  }

  lemma {:induction false} SendableFrame(o: Item, max: uint32)
    requires Sendable(o, max)
    ensures var f := FrameFor(o.channel, o.performative, o.payload);
            && f.Ok? && Marshalled(f.value, max).Ok? && FullLength(f.value) < TWO_32
            && ItemBytes(o, max) == Marshalled(f.value, max).value
  {}

  // ---------------------------------------------------------------- the bytes on the wire

  /** An encoded performative is a form of its descriptor with its trimmed field list. */
  lemma {:induction false} PerformativeIsForm(p: Performative)
    requires EncodedPerformative(p).Ok? && Fits(List(Trim(p.fields)))
    ensures IsForm(EncodedPerformative(p).value, Described(p.descriptor, List(Trim(p.fields))))
  {
    hide Wire, Problem, Fits, Validate;
    var v := List(Trim(p.fields));
    WireIsShortestForm(v, []);
    assert EncodedPerformative(p).value[3..] == Wire(v);
  }

  /** Exactly the forms of a described list whose performative is valid are decoded as performatives. */
  lemma {:induction false} PerformativeDecodesExactlyWhen(b: bytes, p: Performative, n: nat)
    ensures DecodedPerformative(b) == Ok((p, n)) <==>
            n <= |b| && IsForm(b[..n], Described(p.descriptor, List(p.fields))) && Validate(p).None?
  {
    hide Decode, DecodeDescriptor, IsForm, Validate;
    var v := Described(p.descriptor, List(p.fields));
    DecodesExactlyForms(b, v, n);
    if b != [] && b[0] == 0x00 {
      DecodeDescribed(b);
    }
    if n <= |b| && IsForm(b[..n], v) {
      DescribedStart(b[..n], p.descriptor, List(p.fields));
      DecodeDescribed(b);
    }
  }

  lemma {:induction false} DescribedStart(w: bytes, d: byte, x: Value)
    requires IsForm(w, Described(d, x))
    ensures |w| >= 3 && w[0] == 0x00
  {}

  /** A data section is a form of the described binary that section 3.2.6 of AMQP 1.0 Part 3 calls for. */
  lemma {:induction false} DataSectionIsForm(body: bytes)
    requires |body| < TWO_32
    ensures IsForm(EncodeDataSection(body), Described(0x75, Binary(body)))
  {
    var v := Binary(body);
    WireIsShortestForm(v, []);
    assert EncodeDataSection(body)[3..] == Wire(v);
  }

  /** What a payload is taken for: the binary of a data section, or, when it does not begin like one, itself. */
  lemma {:induction false} DataSectionExactlyWhen(raw: bytes, body: bytes)
    ensures DecodeDataSection(raw) == Ok(body) <==>
            if [0x00, 0x53, 0x75] <= raw then exists n :: 3 <= n <= |raw| && IsForm(raw[3..n], Binary(body))
            else raw != [] && body == raw
  {
    hide Decode, IsForm;
    if [0x00, 0x53, 0x75] <= raw {
      assert raw[0] == 0x00 && raw[1] == 0x53 && raw[2] == 0x75;
      if n :| 3 <= n <= |raw| && IsForm(raw[3..n], Binary(body)) {
        Slices(raw, 3, 3, n, n);
        DecodesExactlyForms(raw[3..], Binary(body), n - 3);
      }
      if DecodeDataSection(raw) == Ok(body) {
        var d := Decode(raw[3..]).value;
        DecodesExactlyForms(raw[3..], d.value, d.n);
        Slices(raw, 3, 3, d.n + 3, d.n + 3);
      }
    } else if |raw| >= 3 {
      assert raw[..3] != [0x00, 0x53, 0x75];
    }
  }

  /** The frame of an item is an AMQP frame without extended header on its channel, payload last. */
  lemma {:induction false} FrameOfItem(channel: uint16, p: Performative, payload: bytes, max: uint32)
    requires EncodedPerformative(p).Ok?
    ensures var f := FrameFor(channel, p, payload);
            && f.Ok? && f.value.body == EncodedPerformative(p).value + payload
            && (Marshalled(f.value, max).Ok? && FullLength(f.value) < TWO_32 ==>
                  var raw := Marshalled(f.value, max).value;
                  && Number(raw[..4]) == |raw| && raw[4] == 2 && raw[5] == 0 && Number(raw[6..8]) == channel
                  && raw[8..] == EncodedPerformative(p).value + payload)
  {
    hide EncodedPerformative, Marshalled, Number, ParseFrame;
    var f := FrameFor(channel, p, payload).value;
    if Marshalled(f, max).Ok? && FullLength(f) < TWO_32 {
      FrameRoundTripExactlyWhen(f, max);
      FrameLayout(Marshalled(f, max).value, max);
    }
  }
}
