/** What the value codec guarantees: round trip, locality, minimality. */
module ValueLaws {
  import opened Wrappers
  import opened Bytes
  import opened Values

  // ---------------------------------------------------------------- round trip

  /**
   Every length the encoder writes fits the 32-bit field it writes it to.  Only the outermost
   length matters, because it bounds the lengths inside it.
   */
  predicate Fits(v: Value) {
    match v
    case Str(s) => |s| < TWO_32
    case Symbol(s) => |s| < TWO_32
    case Binary(s) => |s| < TWO_32
    case List(items) => |WireItems(items)| + 4 < TWO_32
    case Described(_, x) => Fits(x)
    case _ => true
  }

  lemma {:induction false} ShortFits(v: Value)
    requires |Wire(v)| + 4 < TWO_32
    ensures Fits(v)
  {
    match v
    case Described(d, x) => ShortFits(x);
    case List(items) =>
      if items != [] {
        assert |WireList(|items|, WireItems(items))| >= |WireItems(items)| + 3;
      }
    case _ =>
  }

  predicate RoundTrips(v: Value, tail: bytes) {
    Decode(Wire(v) + tail) == Ok(Decoded(v, |Wire(v)|))
  }

  lemma {:induction false} ScalarRoundTrip(v: Value, tail: bytes)
    requires v.Null? || v.Bool? || v.Ubyte? || v.Ushort? || v.Uint? || v.Ulong?
    ensures RoundTrips(v, tail)
  {
    var w := Wire(v) + tail;
    match v
    case Ushort(n) =>
      assert w[1..] == PutU16(n) + tail;
      RoundTripU16(n, tail);
    case Uint(n) =>
      if n >= 256 {
        assert w[1..] == PutU32(n) + tail;
        RoundTripU32(n, tail);
      }
    case Ulong(n) =>
      if n >= 256 {
        assert w[1..] == PutU64(n) + tail;
        RoundTripU64(n, tail);
      }
    case _ =>
  }

  lemma {:induction false} ShortBytesRoundTrip(code: byte, s: bytes, tail: bytes, w: bytes)
    requires IsShortBytes(code) && |s| <= 255
    requires w == [code, |s|] + s + tail
    ensures Decode(w) == Ok(Decoded(BytesOf(code, s), 2 + |s|))
  {
    hide Decode, BytesOf, IsShortBytes, DecodeBinary8;
    ShortBytesLayout(code, s, tail, w);
    Binary8Reads(w[1..], s);
    DecodeShortBytes(w);
  }

  lemma {:induction false} ShortBytesLayout(code: byte, s: bytes, tail: bytes, w: bytes)
    requires |s| <= 255 && w == [code, |s|] + s + tail
    ensures |w| == 2 + |s| + |tail| && w[0] == code && w[1..][0] == |s| && w[1..][1..1 + |s|] == s
  {
    assert w[1..] == [|s|] + s + tail;
  }

  lemma {:induction false} Binary8Reads(b: bytes, s: bytes)
    requires |b| >= 1 + |s| && b[0] == |s| && b[1..1 + |s|] == s
    ensures DecodeBinary8(b) == Ok(s)
  {}

  lemma {:induction false} Binary32Reads(b: bytes, s: bytes)
    requires |b| >= 4 + |s| && GetU32(b) == |s| && b[4..4 + |s|] == s
    ensures DecodeBinary32(b) == Ok(s)
  {
    hide GetU32;
  }

  lemma {:induction false} DecodeShortBytes(w: bytes)
    requires w != [] && IsShortBytes(w[0])
    ensures Decode(w) == match DecodeBinary8(w[1..])
                         case Ok(v) => Ok(Decoded(BytesOf(w[0], v), 2 + |v|))
                         case Err(e) => Err(e)
  {
    hide BytesOf, DecodeBinary8, DecodeBinary32, DecodeDescriptor, DecodeList, DecodeItems, ScalarOf, GetU32;
  }

  lemma {:induction false} DecodeLongBytes(w: bytes)
    requires w != [] && IsLongBytes(w[0])
    ensures Decode(w) == match DecodeBinary32(w[1..])
                         case Ok(v) => Ok(Decoded(BytesOf(w[0], v), 5 + |v|))
                         case Err(e) => Err(e)
  {
    hide BytesOf, DecodeBinary8, DecodeBinary32, DecodeDescriptor, DecodeList, DecodeItems, ScalarOf, GetU32;
  }

  lemma {:induction false} LongBytesRoundTrip(code: byte, s: bytes, tail: bytes, w: bytes)
    requires IsLongBytes(code) && |s| < TWO_32
    requires w == [code] + PutU32(|s|) + s + tail
    ensures Decode(w) == Ok(Decoded(BytesOf(code, s), 5 + |s|))
  {
    hide PutU32, GetU32, Decode, BytesOf, IsLongBytes;
    assert w[1..] == PutU32(|s|) + (s + tail);
    RoundTripU32(|s|, s + tail);
    assert w[1..][4..4 + |s|] == s;
    Binary32Reads(w[1..], s);
    DecodeLongBytes(w);
  }

  lemma {:induction false} BytesRoundTrip(short: byte, long: byte, s: bytes, tail: bytes)
    requires IsShortBytes(short) && long == short + 0x10
    requires |s| < TWO_32
    ensures Decode(WireBytes(short, long, s) + tail) == Ok(Decoded(BytesOf(short, s), |WireBytes(short, long, s)|))
  {
    hide Decode;
    if |s| <= 255 {
      ShortBytesRoundTrip(short, s, tail, WireBytes(short, long, s) + tail);
    } else {
      LongBytesRoundTrip(long, s, tail, WireBytes(short, long, s) + tail);
    }
  }

  lemma {:induction false} DecodeListSucceeds(w: bytes, head: nat, items: seq<Value>, p: bytes, tail: bytes)
    requires 0 < head <= |w| && w[head..] == p + tail
    requires DecodeItems(p + tail, |items|) == Ok(DecodedItems(items, |p|))
    ensures DecodeList(w, head, |p|, |items|) == Ok(Decoded(List(items), head + |p|))
  {
    hide Decode, DecodeItems;
    assert |w[head..]| == |p| + |tail|;
  }

  lemma {:induction false} ShortListRoundTrip(items: seq<Value>, p: bytes, tail: bytes, w: bytes)
    requires |w| >= 3 && w[0] == 0xc0 && w[3..] == p + tail
    requires w[1] == |p| + 1 && w[2] == |items|
    requires DecodeItems(p + tail, |items|) == Ok(DecodedItems(items, |p|))
    ensures Decode(w) == Ok(Decoded(List(items), 3 + |p|))
  {
    hide DecodeItems, DecodeList;
    DecodeListSucceeds(w, 3, items, p, tail);
  }

  lemma {:induction false} ShortListHeader(count: nat, p: bytes, tail: bytes, w: bytes)
    requires count > 0 && |p| + 1 <= 255 && count <= 255
    requires w == WireList(count, p) + tail
    ensures |w| == 3 + |p| + |tail| && w[0] == 0xc0 && w[1] == |p| + 1 && w[2] == count && w[3..] == p + tail
  {}

  lemma {:induction false} HeaderLayout(code: byte, x: bytes, y: bytes, p: bytes, tail: bytes, w: bytes)
    requires |x| == 4 && |y| == 4 && w == [code] + x + y + p + tail
    ensures w[1..] == x + (y + p + tail) && w[5..] == y + (p + tail) && w[9..] == p + tail && w[0] == code
  {}

  lemma {:induction false} LongListHeader(count: nat, p: bytes, tail: bytes, w: bytes)
    requires count > 0 && (|p| + 1 > 255 || count > 255)
    requires w == WireList(count, p) + tail
    ensures |w| == 9 + |p| + |tail| && w[0] == 0xd0 && w[9..] == p + tail
    ensures GetU32(w[1..]) == (|p| + 4) % TWO_32 && GetU32(w[5..]) == count % TWO_32
  {
    hide PutU32, GetU32;
    var size, n := (|p| + 4) % TWO_32, count % TWO_32;
    HeaderLayout(0xd0, PutU32(size), PutU32(n), p, tail, w);
    RoundTripU32(size, PutU32(n) + p + tail);
    RoundTripU32(n, p + tail);
  }

  lemma {:induction false} LongListRoundTrip(items: seq<Value>, p: bytes, tail: bytes, w: bytes)
    requires |w| >= 9 && w[0] == 0xd0 && w[9..] == p + tail
    requires GetU32(w[1..]) == |p| + 4 && GetU32(w[5..]) == |items|
    requires DecodeItems(p + tail, |items|) == Ok(DecodedItems(items, |p|))
    ensures Decode(w) == Ok(Decoded(List(items), 9 + |p|))
  {
    hide DecodeItems, DecodeList, GetU32;
    DecodeListSucceeds(w, 9, items, p, tail);
  }

  lemma {:induction false} EmptyListRoundTrip(w: bytes)
    requires w != [] && w[0] == 0x45
    ensures Decode(w) == Ok(Decoded(List([]), 1))
  {}

  lemma {:induction false} ListRoundTrip(items: seq<Value>, p: bytes, tail: bytes, w: bytes)
    requires |items| <= |p| && |p| + 4 < TWO_32
    requires DecodeItems(p + tail, |items|) == Ok(DecodedItems(items, |p|))
    requires w == WireList(|items|, p) + tail
    ensures Decode(w) == Ok(Decoded(List(items), |w| - |tail|))
  {
    hide Decode, DecodeItems, GetU32, PutU32;
    if items == [] {
      EmptyListRoundTrip(w);
    } else if |p| + 1 <= 255 && |items| <= 255 {
      ShortListHeader(|items|, p, tail, w);
      ShortListRoundTrip(items, p, tail, w);
    } else {
      LongListHeader(|items|, p, tail, w);
      LongListRoundTrip(items, p, tail, w);
    }
  }

  lemma {:induction false} DescribedRoundTrip(d: byte, x: Value, tail: bytes)
    ensures RoundTrips(Described(d, x), tail) <==> RoundTrips(x, tail)
  {
    var w := Wire(Described(d, x)) + tail;
    assert w[1..][0] == 0x53 && w[1..][1] == d;
    assert w[3..] == Wire(x) + tail;
  }

  /** Decoding undoes encoding and takes exactly the encoded bytes, whatever follows them. */
  lemma {:induction false} ValueRoundTrip(v: Value, tail: bytes)
    requires Problem(v).None? && Fits(v)
    ensures RoundTrips(v, tail)
    decreases v, 1
  {
    hide Decode, DecodeItems, WireList, WireBytes, PutU64, PutU32, PutU16, WireItems;
    match v
    case Str(s) => BytesRoundTrip(0xa1, 0xb1, s, tail);
    case Symbol(s) => BytesRoundTrip(0xa3, 0xb3, s, tail);
    case Binary(s) => BytesRoundTrip(0xa0, 0xb0, s, tail);
    case List(items) =>
      ItemsRoundTrip(items, tail);
      ListRoundTrip(items, WireItems(items), tail, Wire(v) + tail);
    case Described(d, x) =>
      ValueRoundTrip(x, tail);
      DescribedRoundTrip(d, x, tail);
    case _ => ScalarRoundTrip(v, tail);
  }

  lemma {:induction false} ItemsLayout(first: bytes, rest: bytes, tail: bytes)
    ensures first + rest + tail == first + (rest + tail)
    ensures (first + rest + tail)[|first|..] == rest + tail
  {}

  lemma {:induction false} ItemsRoundTrip(items: seq<Value>, tail: bytes)
    requires ProblemIn(items).None? && |WireItems(items)| + 4 < TWO_32
    ensures DecodeItems(WireItems(items) + tail, |items|) == Ok(DecodedItems(items, |WireItems(items)|))
    decreases items, 0
  {
    hide Decode, DecodeList, Wire, Problem, Fits, WireList;
    if items != [] {
      var head, rest := items[0], WireItems(items[1..]);
      ShortFits(head);
      ValueRoundTrip(head, rest + tail);
      ItemsRoundTrip(items[1..], tail);
      var w := WireItems(items) + tail;
      ItemsLayout(Wire(head), rest, tail);
      assert Decode(w) == Ok(Decoded(head, |Wire(head)|));
      assert [head] + items[1..] == items;
    }
  }

  lemma {:induction false} LongBytesDoNotRoundTrip(short: byte, long: byte, s: bytes, tail: bytes)
    requires IsLongBytes(long)
    requires |s| >= TWO_32
    ensures Decode(WireBytes(short, long, s) + tail) != Ok(Decoded(BytesOf(long, s), |WireBytes(short, long, s)|))
  {
    hide Decode, DecodeBinary32, PutU32, BytesOf;
    var w := WireBytes(short, long, s) + tail;
    assert w[0] == long;
    DecodeLongBytes(w);
    BytesOfInjective(long, s);
  }

  lemma {:induction false} BytesOfInjective(code: byte, s: bytes)
    ensures forall r :: BytesOf(code, r) == BytesOf(code, s) ==> r == s
  {}

  lemma {:induction false} LongListDoesNotRoundTrip(count: nat, p: bytes, tail: bytes, w: bytes)
    requires count > 0 && |p| + 4 >= TWO_32
    requires w == WireList(count, p) + tail
    ensures Decode(w).Ok? ==> Decode(w).value.n < 9 + |p| == |WireList(count, p)|
  {
    hide DecodeItems, GetU32, PutU32;
    LongListHeader(count, p, tail, w);
  }

  /**
   The lengths that wrap around in the encoder are exactly what can break the round trip of an
   encodable value.
   */
  lemma {:induction false} RoundTripExactlyWhenFits(v: Value, tail: bytes)
    requires Problem(v).None?
    ensures RoundTrips(v, tail) <==> Fits(v)
  {
    if Fits(v) {
      ValueRoundTrip(v, tail);
    } else {
      match v
      case Str(s) => LongBytesDoNotRoundTrip(0xa1, 0xb1, s, tail);
      case Symbol(s) => LongBytesDoNotRoundTrip(0xa3, 0xb3, s, tail);
      case Binary(s) => LongBytesDoNotRoundTrip(0xa0, 0xb0, s, tail);
      case List(items) =>
        assert items != [];
        LongListDoesNotRoundTrip(|items|, WireItems(items), tail, Wire(v) + tail);
      case Described(d, x) =>
        RoundTripExactlyWhenFits(x, tail);
        DescribedRoundTrip(d, x, tail);
    }
  }

  // ---------------------------------------------------------------- locality

  /** The two byte strings have the same first n bytes. */
  predicate Agree(b: bytes, c: bytes, n: nat) {
    n <= |b| && n <= |c| && forall i :: 0 <= i < n ==> b[i] == c[i]
  }

  lemma AgreeFrom(b: bytes, c: bytes, n: nat, k: nat)
    requires Agree(b, c, n) && k <= n
    ensures Agree(b[k..], c[k..], n - k)
  {}

  lemma AgreeGetU32(b: bytes, c: bytes)
    requires Agree(b, c, 4)
    ensures GetU32(b) == GetU32(c)
  {}

  lemma AgreeGetU64(b: bytes, c: bytes)
    requires Agree(b, c, 8)
    ensures GetU64(b) == GetU64(c)
  {
    AgreeGetU32(b, c);
    AgreeGetU32(b[4..], c[4..]);
  }

  lemma ScalarLocal(code: byte, b: bytes, c: bytes)
    requires 0 <= Width(code) && Agree(b, c, Width(code))
    ensures ScalarOf(code, b) == ScalarOf(code, c)
  {
    if code == 0x70 {
      AgreeGetU32(b, c);
    } else if code == 0x80 {
      AgreeGetU64(b, c);
    }
  }

  lemma BytesLocal(b: bytes, c: bytes, n: nat)
    requires Agree(b, c, n)
    ensures DecodeBinary8(b).Ok? && n == 1 + |DecodeBinary8(b).value| ==> DecodeBinary8(c) == DecodeBinary8(b)
    ensures DecodeBinary32(b).Ok? && n == 4 + |DecodeBinary32(b).value| ==> DecodeBinary32(c) == DecodeBinary32(b)
  {
    if DecodeBinary8(b).Ok? && n == 1 + |DecodeBinary8(b).value| {
      assert b[1..n] == c[1..n];
    }
    if DecodeBinary32(b).Ok? && n == 4 + |DecodeBinary32(b).value| {
      AgreeGetU32(b, c);
      assert b[4..n] == c[4..n];
    }
  }

  lemma DescriptorLocal(b: bytes, c: bytes, n: nat)
    requires DecodeDescriptor(b).Ok? && Agree(b, c, n) && DecodeDescriptor(b).value.1 <= n
    ensures DecodeDescriptor(c) == DecodeDescriptor(b)
  {
    if b[0] == 0x70 {
      AgreeGetU32(b[1..], c[1..]);
    }
  }

  /** Values that hold no other values. */
  lemma {:induction false} PlainLocal(b: bytes, c: bytes)
    requires Decode(b).Ok? && Agree(b, c, Decode(b).value.n)
    requires 0 <= Width(b[0]) || IsShortBytes(b[0]) || IsLongBytes(b[0])
    ensures Decode(c) == Decode(b)
  {
    hide ScalarOf, BytesOf, DecodeBinary8, DecodeBinary32, DecodeDescriptor, DecodeList, DecodeItems;
    var n := Decode(b).value.n;
    AgreeFrom(b, c, n, 1);
    if 0 <= Width(b[0]) {
      ScalarLocal(b[0], b[1..], c[1..]);
    } else {
      BytesLocal(b[1..], c[1..], n - 1);
    }
  }

  lemma {:induction false} DecodeList32(b: bytes)
    requires |b| >= 9 && b[0] == 0xd0
    ensures Decode(b) == DecodeList(b, 9, GetU32(b[1..]) as int - 4, GetU32(b[5..]))
  {
    hide DecodeList, GetU32;
  }

  lemma {:induction false} DecodeList8(b: bytes)
    requires |b| >= 3 && b[0] == 0xc0
    ensures Decode(b) == DecodeList(b, 3, b[1] as int - 1, b[2])
  {
    hide DecodeList;
  }

  lemma {:induction false} ListForms(b: bytes)
    requires Decode(b).Ok? && (b[0] == 0xc0 || b[0] == 0xd0)
    ensures var head := if b[0] == 0xc0 then 3 else 9; head <= |b| && head <= Decode(b).value.n
  {
    hide DecodeItems, GetU32;
  }

  lemma {:induction false} DescribedLocal(b: bytes, c: bytes)
    requires Decode(b).Ok? && Agree(b, c, Decode(b).value.n) && b[0] == 0x00
    ensures DecodeDescriptor(b[1..]).Ok?
    ensures var k := 1 + DecodeDescriptor(b[1..]).value.1;
            && k <= |b| && k <= |c| && Decode(b[k..]).Ok? && Agree(b[k..], c[k..], Decode(b[k..]).value.n)
            && (Decode(c[k..]) == Decode(b[k..]) ==> Decode(c) == Decode(b))
  {
    hide Decode, DecodeDescriptor, Agree;
    DecodeDescribed(b);
    var n := Decode(b).value.n;
    AgreeStart(b, c, n);
    AgreeFrom(b, c, n, 1);
    DescriptorLocal(b[1..], c[1..], n - 1);
    var k := 1 + DecodeDescriptor(b[1..]).value.1;
    AgreeFrom(b, c, n, k);
    DecodeDescribed(c);
  }

  lemma AgreeStart(b: bytes, c: bytes, n: nat)
    requires Agree(b, c, n) && n > 0
    ensures n <= |b| && n <= |c| && b[0] == c[0]
  {}

  lemma {:induction false} DecodeDescribed(b: bytes)
    requires b != [] && b[0] == 0x00
    ensures Decode(b) == match DecodeDescriptor(b[1..])
                         case Err(e) => Err(e)
                         case Ok(d) => match Decode(b[1 + d.1..])
                                       case Err(e) => Err(e)
                                       case Ok(x) => Ok(Decoded(Described(d.0, x.value), 1 + d.1 + x.n))
  {
    hide BytesOf, DecodeBinary8, DecodeBinary32, DecodeDescriptor, DecodeList, DecodeItems, ScalarOf, GetU32;
  }

  /**
   A successful result depends only on the bytes it consumed: any other input that starts with
   those bytes decodes to the same value and length.
   */
  lemma {:induction false} DecodeLocal(b: bytes, c: bytes)
    requires Decode(b).Ok? && Agree(b, c, Decode(b).value.n)
    ensures Decode(c) == Decode(b)
    decreases |b|, 0
  {
    hide Decode, DecodeList, DecodeItems, DecodeDescriptor, GetU32;
    var n := Decode(b).value.n;
    Constructors(b);
    if b[0] == 0xc0 {
      ListForms(b);
      DecodeList8(b);
      DecodeList8(c);
      ListLocal(b, c, 3, b[1] as int - 1, b[2]);
    } else if b[0] == 0xd0 {
      ListForms(b);
      DecodeList32(b);
      DecodeList32(c);
      AgreeGetU32(b[1..], c[1..]);
      AgreeGetU32(b[5..], c[5..]);
      ListLocal(b, c, 9, GetU32(b[1..]) as int - 4, GetU32(b[5..]));
    } else if b[0] == 0x00 {
      DescribedLocal(b, c);
      var k := 1 + DecodeDescriptor(b[1..]).value.1;
      DecodeLocal(b[k..], c[k..]);
    } else {
      PlainLocal(b, c);
    }
  }

  /** The constructors the decoder knows. */
  lemma {:induction false} Constructors(b: bytes)
    requires Decode(b).Ok?
    ensures b != []
    ensures || 0 <= Width(b[0]) || IsShortBytes(b[0]) || IsLongBytes(b[0])
            || b[0] == 0xc0 || b[0] == 0xd0 || b[0] == 0x00
  {}

  lemma {:induction false} ListLocal(b: bytes, c: bytes, head: nat, space: int, count: nat)
    requires 0 < head <= |b|
    requires DecodeList(b, head, space, count).Ok?
    requires Agree(b, c, DecodeList(b, head, space, count).value.n)
    ensures DecodeList(c, head, space, count) == DecodeList(b, head, space, count)
    decreases |b| - head, 2
  {
    hide Decode, DecodeItems;
    AgreeFrom(b, c, head + space, head);
    ItemsLocal(b[head..], c[head..], count);
  }

  lemma {:induction false} ItemsLocal(b: bytes, c: bytes, count: nat)
    requires DecodeItems(b, count).Ok? && Agree(b, c, DecodeItems(b, count).value.n)
    ensures DecodeItems(c, count) == DecodeItems(b, count)
    decreases |b|, 1
  {
    hide Decode, DecodeList, DecodeItems, Agree;
    ItemsUnfold(b, count);
    ItemsUnfold(c, count);
    if count > 0 {
      var k := Decode(b).value.n;
      var d := DecodeItems(b[k..], count - 1).value;
      AgreeLess(b, c, k + d.n, k);
      DecodeLocal(b, c);
      AgreeFrom(b, c, k + d.n, k);
      ItemsLocal(b[k..], c[k..], count - 1);
    }
  }

  lemma AgreeLess(b: bytes, c: bytes, n: nat, k: nat)
    requires Agree(b, c, n) && k <= n
    ensures Agree(b, c, k) && k <= |b| && k <= |c|
  {}

  lemma {:induction false} ItemsUnfold(b: bytes, count: nat)
    ensures DecodeItems(b, count) ==
            if count == 0 then Ok(DecodedItems([], 0))
            else match Decode(b)
              case Err(e) => Err(e)
              case Ok(x) => match DecodeItems(b[x.n..], count - 1)
                case Err(e) => Err(e)
                case Ok(d) => Ok(DecodedItems([x.value] + d.items, x.n + d.n))
  {
    hide Decode, DecodeList;
  }

  /** No accepted encoding is a proper prefix of another: every shorter cut of it is refused. */
  lemma {:induction false} DecodePrefixFree(b: bytes, k: nat)
    requires Decode(b).Ok? && k < Decode(b).value.n
    ensures Decode(b[..k]).Err?
  {
    if Decode(b[..k]).Ok? {
      DecodeLocal(b[..k], b);
    }
  }

  // ---------------------------------------------------------------- minimality

  /**
   The encoder never writes more bytes than the decoder read for the same value, and what it
   writes reads back as that value.
   */
  lemma {:induction false} ReencodeMinimal(b: bytes)
    requires Decode(b).Ok?
    ensures var v := Decode(b).value.value;
            Problem(v).None? && Fits(v) && |Wire(v)| <= Decode(b).value.n
    decreases |b|, 0
  {
    hide DecodeItems, DecodeList, GetU32;
    if b[0] == 0xc0 {
      ListMinimal(b, 3, b[1] as int - 1, b[2]);
    } else if b[0] == 0xd0 {
      ListMinimal(b, 9, GetU32(b[1..]) as int - 4, GetU32(b[5..]));
    } else if b[0] == 0x00 {
      ReencodeMinimal(b[1 + DecodeDescriptor(b[1..]).value.1..]);
    }
  }

  lemma {:induction false} ListMinimal(b: bytes, head: nat, space: int, count: nat)
    requires (head == 3 && space <= 254 && count <= 255) || (head == 9 && space + 4 < TWO_32)
    requires head <= |b| && DecodeList(b, head, space, count).Ok?
    ensures var d := DecodeList(b, head, space, count).value;
            Problem(d.value).None? && Fits(d.value) && |Wire(d.value)| <= d.n
    decreases |b| - head, 2
  {
    hide Decode, DecodeItems, WireItems, PutU32;
    ItemsMinimal(b[head..], count);
  }

  lemma {:induction false} ItemsMinimal(b: bytes, count: nat)
    requires DecodeItems(b, count).Ok?
    ensures var d := DecodeItems(b, count).value;
            ProblemIn(d.items).None? && |WireItems(d.items)| <= d.n
    decreases |b|, 1
  {
    hide Decode, DecodeList, Wire, Problem;
    if count > 0 {
      var x, d := Decode(b).value, DecodeItems(b, count).value;
      ReencodeMinimal(b);
      ItemsMinimal(b[x.n..], count - 1);
      assert d.items[0] == x.value && d.items[1..] == DecodeItems(b[x.n..], count - 1).value.items;
    }
  }

  /** Whatever the decoder accepted is encodable, and re-encoding it reads back as the same value. */
  lemma {:induction false} ReencodeRoundTrip(b: bytes, tail: bytes)
    requires Decode(b).Ok?
    ensures RoundTrips(Decode(b).value.value, tail)
    ensures |Wire(Decode(b).value.value)| <= Decode(b).value.n
  {
    ReencodeMinimal(b);
    ValueRoundTrip(Decode(b).value.value, tail);
  }

  // ---------------------------------------------------------------- what cannot be encoded

  /** The parts of a value that have no form, in reading order. */
  function Obstacles(v: Value): seq<Value>
    decreases v, 1
  {
    match v
    case List(items) => ObstaclesIn(items)
    case Described(_, x) => Obstacles(x)
    case Undescribed => [v]
    case Foreign => [v]
    case _ => []
  }

  function ObstaclesIn(items: seq<Value>): seq<Value>
    decreases items, 0
  {
    if items == [] then [] else Obstacles(items[0]) + ObstaclesIn(items[1..])
  }

  function Named(obstacles: seq<Value>): Option<CodecError> {
    if obstacles == [] then None else if obstacles[0] == Foreign then Some(CannotEncode) else Some(MissingDescriptor)
  }

  /** The encoder fails exactly when some part of the value has no form, and names the first such part. */
  lemma {:induction false} FailsOnFirstObstacle(v: Value)
    ensures Problem(v) == Named(Obstacles(v))
    decreases v, 1
  {
    match v
    case List(items) => FailsInItems(items);
    case Described(_, x) => FailsOnFirstObstacle(x);
    case _ =>
  }

  lemma {:induction false} FailsInItems(items: seq<Value>)
    ensures ProblemIn(items) == Named(ObstaclesIn(items))
    decreases items, 0
  {
    if items != [] {
      FailsOnFirstObstacle(items[0]);
      FailsInItems(items[1..]);
    }
  }
}
