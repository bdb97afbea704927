/** AMQP frames: an eight-byte header, an extended header up to the data offset, and a body. */
module Frames {
  import opened Wrappers
  import opened Bytes

  datatype Frame = Frame(size: uint32, dataOffset: byte, kind: byte, channel: uint16, body: bytes)

  datatype FrameError =
    | ShorterThanHeader
    | BelowMinimumSize
    | ExceedsMaximum
    | SizeMismatch
    | OffsetBelowHeader
    | OffsetPastEnd
    | UnsupportedKind
    | SliceOutOfRange    // the run-time panic of slicing past the end of a buffer

  const AMQP: byte := 0
  const SASL: byte := 1

  function ParseFrame(raw: bytes, max: uint32): (r: Result<Frame, FrameError>)
    ensures r.Ok? ==> r.value.size == |raw| && |r.value.body| == |raw| - 4 * r.value.dataOffset as int
  {
    if |raw| < 8 then Err(ShorterThanHeader)
    else
      var size := GetU32(raw);
      if size < 8 then Err(BelowMinimumSize)
      else if max > 0 && size > max then Err(ExceedsMaximum)
      else if size != |raw| then Err(SizeMismatch)
      else
        var offset := raw[4];
        if offset < 2 then Err(OffsetBelowHeader)
        else if offset as int * 4 > |raw| then Err(OffsetPastEnd)
        else if raw[5] != AMQP && raw[5] != SASL then Err(UnsupportedKind)
        else Ok(Frame(size, offset, raw[5], GetU16(raw[6..]), raw[offset as int * 4..]))
  }

  /** The data offset that goes on the wire; zero stands for the plain header. */
  function Offset(f: Frame): byte {
    if f.dataOffset == 0 then 2 else f.dataOffset
  }

  /** The length of a frame before it is cut to 32 bits. */
  function FullLength(f: Frame): nat {
    Offset(f) as int * 4 + |f.body|
  }

  function Zeros(n: nat): bytes {
    seq(n, _ => 0)
  }

  lemma {:induction false} ZerosAre(b: bytes)
    requires forall i :: 0 <= i < |b| ==> b[i] == 0
    ensures b == Zeros(|b|)
  {}

  /** The header of a frame of the given size, filled up with zeros to at least `n` bytes. */
  function Header(f: Frame, size: uint32, n: nat): (h: bytes)
    ensures |h| == 8 + n
  {
    PutU32(size) + [Offset(f), f.kind] + PutU16(f.channel) + Zeros(n)
  }

  function Marshalled(f: Frame, max: uint32): (r: Result<bytes, FrameError>)
    ensures r.Ok? ==> |r.value| == FullLength(f) % TWO_32
  {
    var start := Offset(f) as int * 4;
    var size := FullLength(f) % TWO_32;
    if size < 8 then Err(BelowMinimumSize)
    else if max > 0 && size > max then Err(ExceedsMaximum)
    else if start > size then Err(SliceOutOfRange)
    else Ok(Header(f, size, start)[..start] + f.body[..size - start])
  }

  /** Go's copy into a buffer from position `start` on: as many bytes as there is room for. */
  method CopyAt(dst: array<byte>, start: nat, src: bytes)
    requires start <= dst.Length
    modifies dst
    ensures var n := if dst.Length - start <= |src| then dst.Length - start else |src|;
            dst[..] == old(dst[..start]) + src[..n] + old(dst[start + n..])
  {
    var n := if dst.Length - start <= |src| then dst.Length - start else |src|;
    for i := 0 to n
      invariant dst[..start] == old(dst[..start])
      invariant dst[start..start + i] == src[..i]
      invariant dst[start + i..] == old(dst[start + i..])
    {
      dst[start + i] := src[i];
      assert dst[start..start + (i + 1)] == dst[start..start + i] + [src[i]];
      assert dst[start + (i + 1)..] == old(dst[start + i..])[1..];
    }
    assert dst[..] == dst[..start] + dst[start..start + n] + dst[start + n..];
    assert dst[start..start + n] == src[..n] && dst[start + n..] == old(dst[start + n..]);
  }

  method PutHeader(out: array<byte>, f: Frame, size: uint32, offset: byte)
    requires out.Length >= 8 && out[..] == Zeros(out.Length) && offset == Offset(f)
    modifies out
    ensures out[..] == Header(f, size, out.Length - 8)
  {
    hide PutU32, PutU16;
    CopyAt(out, 0, PutU32(size));
    assert out[..] == PutU32(size) + Zeros(out.Length - 4);
    out[4] := offset;
    out[5] := f.kind;
    assert out[..] == PutU32(size) + [Offset(f), f.kind] + Zeros(out.Length - 6);
    ghost var before := out[..];
    CopyAt(out, 6, PutU16(f.channel));
    assert before[..6] == PutU32(size) + [Offset(f), f.kind];
    assert before[8..] == Zeros(out.Length - 8);
    assert PutU16(f.channel)[..2] == PutU16(f.channel);
  }

  lemma {:induction false} HeaderPrefix(f: Frame, size: uint32, m: nat, n: nat, k: nat)
    requires k <= 8 + m && k <= 8 + n
    ensures Header(f, size, m)[..k] == Header(f, size, n)[..k]
  {
    hide PutU32, PutU16;
  }

  lemma {:induction false} SizeIsLength(f: Frame)
    ensures (Offset(f) as int * 4 + |f.body| % TWO_32) % TWO_32 == FullLength(f) % TWO_32
    ensures FullLength(f) % TWO_32 - Offset(f) as int * 4 <= |f.body|
  {}

  /** Fills a buffer in place: the header fields first, then the body over what follows. */
  method Marshal(f: Frame, max: uint32) returns (r: Result<bytes, FrameError>)
    ensures r == Marshalled(f, max)
  {
    hide Header, Zeros, PutU32, PutU16, FullLength;
    var offset := f.dataOffset;
    if offset == 0 {
      offset := 2;
    }
    var size: uint32 := (offset as int * 4 + |f.body| % TWO_32) % TWO_32;
    SizeIsLength(f);
    if size < 8 {
      return Err(BelowMinimumSize);
    }
    if max > 0 && size > max {
      return Err(ExceedsMaximum);
    }
    var out := new byte[size](_ => 0);
    ZerosAre(out[..]);
    PutHeader(out, f, size, offset);
    var start := offset as int * 4;
    if start > size {
      return Err(SliceOutOfRange);
    }
    HeaderPrefix(f, size, size - 8, start, start);
    CopyAt(out, start, f.body);
    assert start + |f.body[..size - start]| == size;
    assert out[..] == Header(f, size, start)[..start] + f.body[..size - start];
    r := Ok(out[..]);
  }

  /**
   A marshalled frame parses back to itself exactly when its kind is known, its data offset
   leaves room for the header and its length fits 32 bits.
   */
  lemma {:induction false} FrameRoundTripExactlyWhen(f: Frame, max: uint32)
    requires Marshalled(f, max).Ok?
    ensures var raw := Marshalled(f, max).value;
            ParseFrame(raw, max) == Ok(f.(size := |raw|, dataOffset := Offset(f)))
            <==> (f.kind == AMQP || f.kind == SASL) && f.dataOffset != 1 && FullLength(f) < TWO_32
  {
    var raw := Marshalled(f, max).value;
    if f.dataOffset != 1 {
      var start := Offset(f) as int * 4;
      var body := f.body[..|raw| - start];
      assert raw == Header(f, |raw|, start)[..start] + body;
      assert raw[..start] == Header(f, |raw|, start)[..start] && raw[start..] == body;
      HeaderBytes(f, |raw|, start, raw);
      assert body == f.body <==> FullLength(f) < TWO_32;
    }
  }

  lemma {:induction false} HeaderBytes(f: Frame, size: uint32, start: nat, raw: bytes)
    requires 8 <= start <= |raw| && Header(f, size, start)[..start] == raw[..start]
    ensures GetU32(raw) == size && raw[4] == Offset(f) && raw[5] == f.kind && GetU16(raw[6..]) == f.channel
  {
    var head := Header(f, size, start);
    assert head[..start] == raw[..start];
    var middle := [Offset(f), f.kind] + PutU16(f.channel) + Zeros(start);
    assert head == PutU32(size) + middle;
    RoundTripU32(size, middle);
    assert forall i :: 0 <= i < 8 ==> raw[i] == head[i] by {
      assert forall i :: 0 <= i < 8 ==> raw[..start][i] == head[..start][i];
    }
    assert middle[2..] == PutU16(f.channel) + Zeros(start);
    RoundTripU16(f.channel, Zeros(start));
  }

  /**
   The other way round: an accepted frame marshals to the bytes it came from, except that the
   extended header is filled with zeros.
   */
  lemma {:induction false} ParsedMarshals(raw: bytes, max: uint32)
    requires ParseFrame(raw, max).Ok?
    ensures var f := ParseFrame(raw, max).value;
            var start := f.dataOffset as int * 4;
            && 8 <= start <= |raw|
            && Marshalled(f, max) == Ok(raw[..8] + Zeros(start - 8) + raw[start..])
  {
    hide GetU32, GetU16, PutU32, PutU16;
    var f := ParseFrame(raw, max).value;
    var start := f.dataOffset as int * 4;
    RewriteU32(raw);
    RewriteU16(raw[6..]);
    assert FullLength(f) == |raw| == f.size && Offset(f) == f.dataOffset;
    assert raw[..8] == raw[..4] + [raw[4], raw[5]] + raw[6..][..2];
    assert Header(f, |raw|, start) == raw[..8] + Zeros(start);
    assert Header(f, |raw|, start)[..start] == raw[..8] + Zeros(start - 8);
    assert f.body[..|raw| - start] == f.body;
  }

  /** Where the fields of a frame stand in its bytes, and what is accepted there. */
  lemma {:induction false} FrameLayout(raw: bytes, max: uint32)
    ensures var r := ParseFrame(raw, max);
            (r.Ok? <==> && |raw| >= 8 && Number(raw[..4]) == |raw| && (max == 0 || |raw| <= max)
                        && 2 <= raw[4] && raw[4] as int * 4 <= |raw| && (raw[5] == 0 || raw[5] == 1))
    ensures var r := ParseFrame(raw, max);
            r.Ok? ==> && r.value.size == |raw| && r.value.dataOffset == raw[4] && r.value.kind == raw[5]
                      && r.value.channel == Number(raw[6..8]) && r.value.body == raw[raw[4] as int * 4..]
  {
    hide Number, GetU32, GetU16;
    if |raw| >= 8 {
      Number32(raw);
      Number16(raw[6..]);
      Slices(raw, 6, 6, 8, 8);
    }
  }

  /** When a frame can be marshalled: its length, cut to 32 bits, is within the maximum and has room for the header. */
  lemma {:induction false} MarshalsExactlyWhen(f: Frame, max: uint32)
    ensures var size := (4 * (if f.dataOffset == 0 then 2 else f.dataOffset) + |f.body|) % TWO_32;
            Marshalled(f, max).Ok? <==>
            && 8 <= size && (max == 0 || size <= max) && 4 * f.dataOffset <= size
  {
    hide PutU32, PutU16;
  }
}
