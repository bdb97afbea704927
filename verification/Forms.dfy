/**
 The wire forms of section 1.6 of AMQP 1.0 Part 1, written down as a grammar of byte strings.  A
 value has several forms, short and long; the decoder accepts exactly these, and the encoder picks
 a shortest one.
 */
module Forms {
  import opened Wrappers
  import opened Bytes
  import opened Values
  import opened ValueLaws

  /** A constructor code and a number of so many bytes. */
  ghost predicate NumberForm(w: bytes, code: byte, width: nat, n: nat) {
    |w| == 1 + width && w[0] == code && Number(w[1..]) == n
  }

  /** A byte string after its length, which takes one byte or four. */
  ghost predicate BytesForm(w: bytes, short: byte, long: byte, s: bytes) {
    || (|w| >= 2 && w[0] == short && w[1] == |s| && w[2..] == s)
    || (|w| >= 5 && w[0] == long && Number(w[1..5]) == |s| && w[5..] == s)
  }

  /** The bytes are a form of the value. */
  ghost predicate IsForm(w: bytes, v: Value)
    decreases v, 1
  {
    match v
    case Null => w == [0x40]
    case Bool(flag) => w == [if flag then 0x41 else 0x42] || (|w| == 2 && w[0] == 0x56 && (flag <==> w[1] != 0))
    case Ubyte(n) => NumberForm(w, 0x50, 1, n)
    case Ushort(n) => NumberForm(w, 0x60, 2, n)
    case Uint(n) => (n == 0 && w == [0x43]) || NumberForm(w, 0x52, 1, n) || NumberForm(w, 0x70, 4, n)
    case Ulong(n) => (n == 0 && w == [0x44]) || NumberForm(w, 0x53, 1, n) || NumberForm(w, 0x80, 8, n)
    case Str(s) => BytesForm(w, 0xa1, 0xb1, s)
    case Symbol(s) => BytesForm(w, 0xa3, 0xb3, s)
    case Binary(s) => BytesForm(w, 0xa0, 0xb0, s)
    case List(items) =>
      || (items == [] && w == [0x45])
      || (|w| >= 3 && w[0] == 0xc0 && w[1] == |w| - 2 && w[2] == |items| && Fills(w[3..], items))
      || (|w| >= 9 && w[0] == 0xd0 && Number(w[1..5]) == |w| - 5 && Number(w[5..9]) == |items| && Fills(w[9..], items))
    case Described(d, x) =>
      || (|w| >= 3 && w[0] == 0x00 && w[1] == 0x53 && w[2] == d && IsForm(w[3..], x))
      || (|w| >= 6 && w[0] == 0x00 && w[1] == 0x70 && Number(w[2..6]) == d && IsForm(w[6..], x))
    case Undescribed => false
    case Foreign => false
  }

  /** Forms of the items one after the other; whatever follows in the list is skipped. */
  ghost predicate Fills(p: bytes, items: seq<Value>)
    decreases items, 1
  {
    exists n :: 0 <= n <= |p| && AreForms(p[..n], items)
  }

  /** Forms of the items one after the other. */
  ghost predicate AreForms(p: bytes, items: seq<Value>)
    decreases items, 0
  {
    if items == [] then p == []
    else exists k :: 0 <= k <= |p| && IsForm(p[..k], items[0]) && AreForms(p[k..], items[1..])
  }

  // ---------------------------------------------------------------- what is decoded is a form

  lemma {:induction false} ScalarIsForm(code: byte, b: bytes, w: bytes)
    requires 0 <= Width(code) <= |b| && w == [code] + b[..Width(code)]
    ensures IsForm(w, ScalarOf(code, b))
  {
    hide Number, GetU16, GetU32, GetU64;
    assert w[1..] == b[..Width(code)];
    if Width(code) == 1 {
      NumberOne(b[..1]);
    } else if code == 0x60 {
      Number16(b);
    } else if code == 0x70 {
      Number32(b);
    } else if code == 0x80 {
      Number64(b);
    }
  }

  lemma {:induction false} Binary8IsForm(b: bytes)
    requires b != [] && IsShortBytes(b[0]) && DecodeBinary8(b[1..]).Ok?
    ensures var s := DecodeBinary8(b[1..]).value;
            2 + |s| <= |b| && BytesForm(b[..2 + |s|], b[0], b[0] + 0x10, s)
  {
    var s := DecodeBinary8(b[1..]).value;
    hide Number;
    assert |s| == b[1] && s == b[1..][1..1 + |s|];
    Slices(b, 1, 2, 2 + |s|, 2 + |s|);
  }

  lemma {:induction false} Binary32IsForm(b: bytes)
    requires b != [] && IsLongBytes(b[0]) && DecodeBinary32(b[1..]).Ok?
    ensures var s := DecodeBinary32(b[1..]).value;
            5 + |s| <= |b| && BytesForm(b[..5 + |s|], b[0] - 0x10, b[0], s)
  {
    hide Number, GetU32;
    var s := DecodeBinary32(b[1..]).value;
    Number32(b[1..]);
    Slices(b, 1, 1, 5, 5 + |s|);
    Slices(b, 1, 5, 5 + |s|, 5 + |s|);
  }

  lemma {:induction false} BytesAreForm(b: bytes)
    requires b != [] && (IsShortBytes(b[0]) || IsLongBytes(b[0])) && Decode(b).Ok?
    ensures var d := Decode(b).value; IsForm(b[..d.n], d.value)
  {
    hide Decode, DecodeBinary8, DecodeBinary32, BytesForm;
    if IsShortBytes(b[0]) {
      DecodeShortBytes(b);
      Binary8IsForm(b);
    } else {
      DecodeLongBytes(b);
      Binary32IsForm(b);
    }
  }

  lemma {:induction false} DescriptorIsForm(b: bytes)
    requires DecodeDescriptor(b).Ok?
    ensures var d := DecodeDescriptor(b).value;
            || (d.1 == 2 && b[0] == 0x53 && b[1] == d.0)
            || (d.1 == 5 && b[0] == 0x70 && Number(b[1..5]) == d.0)
  {
    hide Number, GetU32;
    if b[0] == 0x70 {
      Number32(b[1..]);
      Slices(b, 1, 1, 5, 5);
    }
  }

  lemma {:induction false} DescribedIsForm(b: bytes)
    requires b != [] && b[0] == 0x00 && Decode(b).Ok?
    ensures var k := 1 + DecodeDescriptor(b[1..]).value.1;
            && DecodeDescriptor(b[1..]).Ok? && k <= |b| && Decode(b[k..]).Ok?
            && var x, d := Decode(b[k..]).value, Decode(b).value;
            IsForm(b[k..][..x.n], x.value) ==> IsForm(b[..d.n], d.value)
  {
    hide Decode, DecodeDescriptor, Number;
    DecodeDescribed(b);
    DescriptorIsForm(b[1..]);
    var k := 1 + DecodeDescriptor(b[1..]).value.1;
    var n := Decode(b).value.n;
    Slices(b, k, k, n, n);
    if k == 6 {
      Slices(b, 1, 2, 6, n);
    }
  }

  lemma {:induction false} ListIsForm(b: bytes, head: nat, space: int, count: nat, d: Decoded)
    requires 0 < head <= |b| && DecodeList(b, head, space, count) == Ok(d)
    ensures d.value.List? && |d.value.items| == count && head <= d.n == head + space <= |b|
    ensures DecodeItems(b[head..], count).Ok?
    ensures var x := DecodeItems(b[head..], count).value;
            AreForms(b[head..][..x.n], x.items) ==> Fills(b[..d.n][head..], d.value.items)
  {
    hide DecodeItems, AreForms;
    var x := DecodeItems(b[head..], count).value;
    Slices(b, head, head, d.n, d.n);
    Slices(b, head, head, head + x.n, d.n);
    Slices(b[..d.n], head, head, head + x.n, d.n);
  }

  lemma {:induction false} ShortListIsForm(b: bytes, d: Decoded)
    requires |b| >= 3 && b[0] == 0xc0 && d.value.List? && 3 <= d.n <= |b|
    requires d.n == 3 + (b[1] as int - 1) && b[2] == |d.value.items| && Fills(b[..d.n][3..], d.value.items)
    ensures IsForm(b[..d.n], d.value)
  {
    hide Fills;
  }

  lemma {:induction false} LongListIsForm(b: bytes, d: Decoded)
    requires |b| >= 9 && b[0] == 0xd0 && d.value.List? && 9 <= d.n <= |b|
    requires d.n == 9 + (GetU32(b[1..]) as int - 4) && GetU32(b[5..]) == |d.value.items|
    requires Fills(b[..d.n][9..], d.value.items)
    ensures IsForm(b[..d.n], d.value)
  {
    hide Fills, Number, GetU32;
    Number32(b[1..]);
    Number32(b[5..]);
    Slices(b, 1, 1, 5, d.n);
    Slices(b, 5, 5, 9, d.n);
  }

  /** What the decoder accepts is a form of the value it gives. */
  lemma {:induction false} DecodedIsForm(b: bytes)
    requires Decode(b).Ok?
    ensures var d := Decode(b).value; IsForm(b[..d.n], d.value)
    decreases |b|, 0
  {
    hide Decode, DecodeList, DecodeItems, DecodeDescriptor, GetU32, IsForm, Fills, AreForms;
    Constructors(b);
    var d := Decode(b).value;
    if b[0] == 0xc0 {
      ListForms(b);
      DecodeList8(b);
      ListIsForm(b, 3, b[1] as int - 1, b[2], d);
      DecodedAreForms(b[3..], b[2]);
      ShortListIsForm(b, d);
    } else if b[0] == 0xd0 {
      ListForms(b);
      DecodeList32(b);
      ListIsForm(b, 9, GetU32(b[1..]) as int - 4, GetU32(b[5..]), d);
      DecodedAreForms(b[9..], GetU32(b[5..]));
      LongListIsForm(b, d);
    } else if b[0] == 0x00 {
      DescribedIsForm(b);
      DecodedIsForm(b[1 + DecodeDescriptor(b[1..]).value.1..]);
    } else if 0 <= Width(b[0]) {
      DecodeScalar(b);
      ScalarIsForm(b[0], b[1..], b[..d.n]);
    } else {
      BytesAreForm(b);
    }
  }

  lemma {:induction false} DecodedAreForms(b: bytes, count: nat)
    requires DecodeItems(b, count).Ok?
    ensures var d := DecodeItems(b, count).value; AreForms(b[..d.n], d.items)
    decreases |b|, 1
  {
    hide Decode, DecodeItems, IsForm, AreForms;
    ItemsUnfold(b, count);
    var d := DecodeItems(b, count).value;
    if count == 0 {
      AreFormsNone();
      assert b[..0] == [];
    } else {
      var k := Decode(b).value.n;
      DecodedIsForm(b);
      DecodedAreForms(b[k..], count - 1);
      var rest := DecodeItems(b[k..], count - 1).value;
      Slices(b, 0, 0, k, d.n);
      Slices(b, k, k, d.n, d.n);
      AreFormsOneMore(b[..d.n], k, d.items);
    }
  }

  lemma {:induction false} AreFormsNone()
    ensures AreForms([], [])
  {}

  lemma {:induction false} AreFormsOneMore(p: bytes, k: nat, items: seq<Value>)
    requires k <= |p| && items != [] && IsForm(p[..k], items[0]) && AreForms(p[k..], items[1..])
    ensures AreForms(p, items)
  {
    hide IsForm;
  }

  lemma {:induction false} DecodeScalar(b: bytes)
    requires b != [] && 0 <= Width(b[0])
    ensures Decode(b) == if |b| - 1 < Width(b[0]) then Err(Truncated)
                         else Ok(Decoded(ScalarOf(b[0], b[1..]), 1 + Width(b[0])))
  {
    hide BytesOf, DecodeBinary8, DecodeBinary32, DecodeDescriptor, DecodeList, DecodeItems, ScalarOf, GetU32;
  }

  // ---------------------------------------------------------------- every form is decoded

  lemma {:induction false} ScalarFormDecodes(w: bytes, v: Value)
    requires IsForm(w, v) && (v.Null? || v.Bool? || v.Ubyte? || v.Ushort? || v.Uint? || v.Ulong?)
    ensures w != [] && Width(w[0]) == |w| - 1 && ScalarOf(w[0], w[1..]) == v
  {
    hide Number, GetU16, GetU32, GetU64;
    var b := w[1..];
    assert b[..|b|] == b;
    if |w| == 2 {
      NumberOne(b);
    } else if |w| == 3 {
      Number16(b);
    } else if |w| == 5 {
      Number32(b);
    } else if |w| == 9 {
      Number64(b);
    }
  }

  lemma {:induction false} BytesFormDecodes(w: bytes, short: byte, long: byte, s: bytes)
    requires IsShortBytes(short) && long == short + 0x10 && BytesForm(w, short, long, s)
    ensures Decode(w) == Ok(Decoded(BytesOf(short, s), |w|))
  {
    hide Decode, Number, GetU32, DecodeBinary8, DecodeBinary32;
    if w[0] == short {
      DecodeShortBytes(w);
      Slices(w, 1, 2, |w|, |w|);
      assert w[2..|w|] == w[2..];
      Binary8Reads(w[1..], s);
    } else {
      DecodeLongBytes(w);
      Number32(w[1..]);
      Slices(w, 1, 1, 5, 5);
      Slices(w, 1, 5, |w|, |w|);
      assert w[5..|w|] == w[5..];
      Binary32Reads(w[1..], s);
      assert BytesOf(w[0], s) == BytesOf(short, s);
    }
  }

  lemma {:induction false} DescribedFormDecodes(w: bytes, d: byte, x: Value, k: nat)
    requires k <= |w| && Decode(w[k..]) == Ok(Decoded(x, |w| - k)) && w != [] && w[0] == 0x00
    requires || (k == 3 && w[1] == 0x53 && w[2] == d)
             || (k == 6 && w[1] == 0x70 && Number(w[2..6]) == d)
    ensures Decode(w) == Ok(Decoded(Described(d, x), |w|))
  {
    hide Decode, Number, GetU32;
    DecodeDescribed(w);
    if k == 6 {
      Number32(w[2..]);
      Slices(w, 1, 2, 6, 6);
      Slices(w, 1, 2, |w|, |w|);
    }
  }

  lemma {:induction false} ListFormDecodes(w: bytes, items: seq<Value>, head: nat)
    requires 0 < head <= |w| && DecodeItems(w[head..], |items|).Ok?
    requires DecodeItems(w[head..], |items|).value.items == items
    ensures DecodeList(w, head, |w| - head, |items|) == Ok(Decoded(List(items), |w|))
  {
    hide DecodeItems;
  }

  /** Every form is decoded, as a whole, to the value it is a form of. */
  lemma {:induction false} FormDecodes(w: bytes, v: Value)
    requires IsForm(w, v)
    ensures Decode(w) == Ok(Decoded(v, |w|))
    decreases v, 1
  {
    hide Decode, DecodeList, DecodeItems, Number, GetU32, Fills, BytesForm;
    match v
    case Str(s) => BytesFormDecodes(w, 0xa1, 0xb1, s);
    case Symbol(s) => BytesFormDecodes(w, 0xa3, 0xb3, s);
    case Binary(s) => BytesFormDecodes(w, 0xa0, 0xb0, s);
    case List(items) =>
      if |w| >= 3 && w[0] == 0xc0 {
        FilledDecodes(w[3..], items);
        DecodeList8(w);
        ListFormDecodes(w, items, 3);
      } else if |w| >= 9 && w[0] == 0xd0 {
        FilledDecodes(w[9..], items);
        DecodeList32(w);
        Number32(w[1..]);
        Number32(w[5..]);
        Slices(w, 1, 1, 5, 9);
        Slices(w, 5, 5, 9, 9);
        ListFormDecodes(w, items, 9);
      } else {
        DecodeScalar(w);
      }
    case Described(d, x) =>
      if w[1] == 0x53 {
        FormDecodes(w[3..], x);
        DescribedFormDecodes(w, d, x, 3);
      } else {
        FormDecodes(w[6..], x);
        DescribedFormDecodes(w, d, x, 6);
      }
    case _ =>
      ScalarFormDecodes(w, v);
      DecodeScalar(w);
  }

  lemma {:induction false} FilledDecodes(p: bytes, items: seq<Value>)
    requires Fills(p, items)
    ensures DecodeItems(p, |items|).Ok? && DecodeItems(p, |items|).value.items == items
    decreases items, 1
  {
    hide DecodeItems, AreForms;
    var n :| 0 <= n <= |p| && AreForms(p[..n], items);
    FormsDecode(p[..n], items);
    ItemsLocal(p[..n], p, |items|);
  }

  lemma {:induction false} FormsDecode(p: bytes, items: seq<Value>)
    requires AreForms(p, items)
    ensures DecodeItems(p, |items|) == Ok(DecodedItems(items, |p|))
    decreases items, 0
  {
    hide Decode, DecodeItems, IsForm;
    ItemsUnfold(p, |items|);
    if items != [] {
      var k :| 0 <= k <= |p| && IsForm(p[..k], items[0]) && AreForms(p[k..], items[1..]);
      FormDecodes(p[..k], items[0]);
      DecodeLocal(p[..k], p);
      FormsDecode(p[k..], items[1..]);
      assert [items[0]] + items[1..] == items;
    }
  }

  // ---------------------------------------------------------------- the decoder is the grammar

  /** Decoding gives a value and a length exactly when that many first bytes are a form of the value. */
  lemma {:induction false} DecodesExactlyForms(b: bytes, v: Value, n: nat)
    ensures Decode(b) == Ok(Decoded(v, n)) <==> n <= |b| && IsForm(b[..n], v)
  {
    hide Decode, IsForm;
    if n <= |b| && IsForm(b[..n], v) {
      FormDecodes(b[..n], v);
      DecodeLocal(b[..n], b);
    }
    if Decode(b) == Ok(Decoded(v, n)) {
      DecodedIsForm(b);
    }
  }

  /** No byte string is a form of two values, and no form is the beginning of another one. */
  lemma {:induction false} FormsUnambiguous(v: bytes, w: bytes, x: Value, y: Value)
    requires IsForm(v, x) && IsForm(w, y) && v <= w
    ensures v == w && x == y
  {
    hide Decode, IsForm;
    FormDecodes(v, x);
    FormDecodes(w, y);
    DecodeLocal(v, w);
  }

  /** What the encoder writes for a value whose length fits is a form of it, and none is shorter. */
  lemma {:induction false} WireIsShortestForm(v: Value, w: bytes)
    requires Problem(v).None? && Fits(v)
    ensures IsForm(Wire(v), v)
    ensures IsForm(w, v) ==> |Wire(v)| <= |w|
  {
    hide Decode, IsForm, Wire;
    ValueRoundTrip(v, []);
    assert Wire(v) + [] == Wire(v);
    DecodesExactlyForms(Wire(v), v, |Wire(v)|);
    assert Wire(v)[..|Wire(v)|] == Wire(v);
    if IsForm(w, v) {
      FormDecodes(w, v);
      ReencodeMinimal(w);
    }
  }
}
