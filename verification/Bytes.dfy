/** Byte strings and the big-endian integers that frames, values and log records use. */
module Bytes {

  type byte = x: int | 0 <= x < 0x100
  type bytes = seq<byte>
  type uint16 = x: int | 0 <= x < 0x1_0000
  type uint32 = x: int | 0 <= x < TWO_32
  type uint64 = x: int | 0 <= x < TWO_64

  const TWO_32 := 0x1_0000_0000
  const TWO_64 := 0x1_0000_0000_0000_0000

  function PutU16(n: uint16): (b: bytes)
    ensures |b| == 2
  {
    [n / 0x100, n % 0x100]
  }

  function PutU32(n: uint32): (b: bytes)
    ensures |b| == 4
  {
    PutU16(n / 0x1_0000) + PutU16(n % 0x1_0000)
  }

  function PutU64(n: uint64): (b: bytes)
    ensures |b| == 8
  {
    PutU32(n / TWO_32) + PutU32(n % TWO_32)
  }

  function GetU16(b: bytes): (n: uint16)
    requires |b| >= 2
  {
    (b[0] as int) * 0x100 + b[1] as int
  }

  function GetU32(b: bytes): (n: uint32)
    requires |b| >= 4
  {
    (GetU16(b) as int) * 0x1_0000 + GetU16(b[2..]) as int
  }

  function GetU64(b: bytes): (n: uint64)
    requires |b| >= 8
  {
    (GetU32(b) as int) * TWO_32 + GetU32(b[4..]) as int
  }

  // Reading ignores whatever follows the integer.

  lemma GetU32Local(b: bytes, tail: bytes)
    requires |b| >= 4
    ensures GetU32(b + tail) == GetU32(b)
  {
    assert (b + tail)[2..] == b[2..] + tail;
  }

  lemma RoundTripU16(n: uint16, tail: bytes)
    ensures GetU16(PutU16(n) + tail) == n
  {}

  lemma RoundTripU32(n: uint32, tail: bytes)
    ensures GetU32(PutU32(n) + tail) == n
  {
    var hi, lo := PutU16(n / 0x1_0000), PutU16(n % 0x1_0000);
    assert PutU32(n) + tail == hi + (lo + tail);
    assert (hi + (lo + tail))[2..] == lo + tail;
    RoundTripU16(n / 0x1_0000, lo + tail);
    RoundTripU16(n % 0x1_0000, tail);
  }

  lemma RoundTripU64(n: uint64, tail: bytes)
    ensures GetU64(PutU64(n) + tail) == n
  {
    var hi, lo := PutU32(n / TWO_32), PutU32(n % TWO_32);
    assert PutU64(n) + tail == hi + (lo + tail);
    assert (hi + (lo + tail))[4..] == lo + tail;
    RoundTripU32(n / TWO_32, lo + tail);
    RoundTripU32(n % TWO_32, tail);
  }

  // Writing what was read gives the bytes back.

  lemma RewriteU16(b: bytes)
    requires |b| >= 2
    ensures PutU16(GetU16(b)) == b[..2]
  {}

  lemma RewriteU32(b: bytes)
    requires |b| >= 4
    ensures PutU32(GetU32(b)) == b[..4]
  {
    RewriteU16(b);
    RewriteU16(b[2..]);
    assert b[..4] == b[..2] + b[2..][..2];
  }

  /** Ways to cut the same bytes out. */
  lemma {:induction false} Slices(b: bytes, k: nat, i: nat, j: nat, n: nat)
    requires k <= i <= j <= n <= |b|
    ensures b[..n][i..j] == b[i..j] && b[k..][i - k..j - k] == b[i..j]
    ensures b[i..][..j - i] == b[i..j] && b[..j][i..] == b[i..j]
  {}

  /** The number that bytes stand for, most significant first. */
  function Number(b: bytes): nat {
    if b == [] then 0 else Number(b[..|b| - 1]) * 256 + b[|b| - 1]
  }

  lemma {:induction false} NumberTwo(a: bytes, x: byte, y: byte)
    ensures Number(a + [x, y]) == Number(a) * 0x1_0000 + x * 0x100 + y
  {
    var b, c := a + [x], a + [x, y];
    assert c[..|c| - 1] == b && b[..|b| - 1] == a;
  }

  lemma {:induction false} NumberOne(b: bytes)
    requires |b| == 1
    ensures Number(b) == b[0]
  {
    assert b[..0] == [];
  }

  lemma {:induction false} Number16(b: bytes)
    requires |b| >= 2
    ensures GetU16(b) == Number(b[..2])
  {
    NumberTwo([], b[0], b[1]);
    assert [] + [b[0], b[1]] == b[..2];
  }

  lemma {:induction false} Number32(b: bytes)
    requires |b| >= 4
    ensures GetU32(b) == Number(b[..4])
  {
    Number16(b);
    NumberTwo(b[..2], b[2], b[3]);
    assert b[..2] + [b[2], b[3]] == b[..4];
  }

  lemma {:induction false} Number64(b: bytes)
    requires |b| >= 8
    ensures GetU64(b) == Number(b[..8])
  {
    Number32(b);
    NumberTwo(b[..4], b[4], b[5]);
    assert b[..4] + [b[4], b[5]] == b[..6];
    NumberTwo(b[..6], b[6], b[7]);
    assert b[..6] + [b[6], b[7]] == b[..8];
  }

  /** Integers are written most significant byte first. */
  lemma {:induction false} WrittenBigEndian(n: uint32, m: uint16)
    ensures Number(PutU32(n)) == n && Number(PutU16(m)) == m
  {
    RoundTripU32(n, []);
    RoundTripU16(m, []);
    Number32(PutU32(n));
    Number16(PutU16(m));
    assert PutU32(n) + [] == PutU32(n) && PutU16(m) + [] == PutU16(m);
    assert PutU32(n)[..4] == PutU32(n) && PutU16(m)[..2] == PutU16(m);
  }
}
