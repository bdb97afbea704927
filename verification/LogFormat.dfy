/** The body log as values: records laid out in a byte file, and what reading the file gives back. */
module LogFormat {
  import opened Wrappers
  import opened Bytes

  /** A message id and the body stored under it. */
  datatype Record = Record(id: bytes, body: bytes)

  datatype LogError =
    | BodyTooLarge
    | OffsetNotFound
    | ShortRead
    | CorruptRecord
    | InvalidRecord
    | InvalidDelimiter

  const RECORD_LIMIT := 0x400_0000  // 64 MiB
  const TOKEN_LIMIT := 0x1_0000     // longest line the scanner holds
  const LF: byte := 10
  const CR: byte := 13

  // ---------------------------------------------------------------- layout

  function Payload(r: Record): (p: bytes)
    ensures |p| == |r.id| + 1 + |r.body|
  {
    r.id + [LF] + r.body
  }

  function RecordBytes(r: Record): (b: bytes)
    ensures |b| == 4 + |Payload(r)|
  {
    PutU32(|Payload(r)| % TWO_32) + Payload(r)
  }

  function FileOf(rs: seq<Record>): bytes {
    if rs == [] then [] else RecordBytes(rs[0]) + FileOf(rs[1..])
  }

  /** Where record k starts. */
  function Start(rs: seq<Record>, k: nat): nat
    requires k <= |rs|
  {
    |FileOf(rs[..k])|
  }

  /** The index of a log that holds exactly these records. */
  function Index(rs: seq<Record>): map<int, nat> {
    map k | 0 <= k < |rs| :: Start(rs, k)
  }

  /** The positions recorded in an index, in order. */
  function Positions(rs: seq<Record>): (ps: seq<nat>)
    ensures |ps| == |rs|
    ensures forall k :: 0 <= k < |rs| ==> ps[k] == Start(rs, k)
  {
    seq(|rs|, k requires 0 <= k < |rs| => Start(rs, k))
  }

  /** The length of every record fits the 32-bit length field. */
  predicate Sized(rs: seq<Record>) {
    forall k :: 0 <= k < |rs| ==> |Payload(rs[k])| < TWO_32
  }

  /** Every record is within the limit that reopening the log enforces. */
  predicate WithinLimit(rs: seq<Record>) {
    WithinLimitFrom(rs, 0)
  }

  predicate WithinLimitFrom(rs: seq<Record>, k: nat) {
    forall j :: k <= j < |rs| ==> |Payload(rs[j])| <= RECORD_LIMIT
  }

  // ---------------------------------------------------------------- reading

  /** The record positions found by walking the file from `pos`. */
  function Scan(file: bytes, pos: nat): Result<seq<nat>, LogError>
    decreases |file| - pos
  {
    if pos >= |file| then Ok([])
    else if |file| - pos < 4 then Err(ShortRead)
    else if GetU32(file[pos..]) > RECORD_LIMIT then Err(CorruptRecord)
    else
      var rest :- Scan(file, pos + 4 + GetU32(file[pos..]));
      Ok([pos] + rest)
  }

  function PayloadAt(file: bytes, pos: nat): Result<bytes, LogError> {
    if |file| - pos < 4 then Err(ShortRead)
    else
      var n := GetU32(file[pos..]);
      if |file| - pos - 4 < n then Err(ShortRead) else Ok(file[pos + 4..pos + 4 + n])
  }

  /** Position of the first line feed, or the length of the data. */
  function LineEnd(data: bytes): (k: nat)
    ensures k <= |data|
    ensures k < |data| ==> data[k] == LF
    ensures forall i :: 0 <= i < k ==> data[i] != LF
  {
    if data == [] || data[0] == LF then 0 else 1 + LineEnd(data[1..])
  }

  /** The body of a record: what follows its first line, as a line scanner with a bounded buffer sees it. */
  function BodyOf(data: bytes): Result<bytes, LogError> {
    var k := LineEnd(data);
    if data == [] || k >= TOKEN_LIMIT then Err(InvalidRecord)
    else
      var token := if k > 0 && data[k - 1] == CR then k - 1 else k;
      if token + 1 > |data| then Err(InvalidDelimiter) else Ok(data[token + 1..])
  }

  /** On disk a record is its length in four bytes, most significant first, the id, a line feed and the body. */
  lemma {:induction false} RecordLayout(r: Record)
    requires |r.id| + 1 + |r.body| < TWO_32
    ensures var b := RecordBytes(r);
            Number(b[..4]) == |b| - 4 && b[4..] == r.id + [10] + r.body
  {
    hide PutU32, Number;
    WrittenBigEndian(|Payload(r)|, 0);
    assert RecordBytes(r)[..4] == PutU32(|Payload(r)|);
  }

  // ---------------------------------------------------------------- laws

  lemma {:induction false} FileOfAppend(a: seq<Record>, b: seq<Record>)
    ensures FileOf(a + b) == FileOf(a) + FileOf(b)
  {
    if a == [] {
      assert a + b == b;
    } else {
      assert (a + b)[1..] == a[1..] + b;
      FileOfAppend(a[1..], b);
    }
  }

  lemma {:induction false} SplitAt(rs: seq<Record>, k: nat)
    requires k < |rs|
    ensures FileOf(rs) == FileOf(rs[..k]) + (RecordBytes(rs[k]) + FileOf(rs[k + 1..]))
    ensures Start(rs, k + 1) == Start(rs, k) + |RecordBytes(rs[k])|
  {
    hide RecordBytes;
    FileOfAppend(rs[..k], rs[k..]);
    assert rs == rs[..k] + rs[k..];
    assert rs[k..][1..] == rs[k + 1..];
    FileOfAppend(rs[..k], [rs[k]]);
    assert rs[..k + 1] == rs[..k] + [rs[k]];
    assert FileOf([rs[k]]) == RecordBytes(rs[k]) + FileOf([]);
  }

  lemma {:induction false} IndexAppend(rs: seq<Record>, r: Record)
    ensures Index(rs + [r]) == Index(rs)[|rs| := |FileOf(rs)|]
  {
    hide FileOf;
    assert (rs + [r])[..|rs|] == rs;
    forall k | 0 <= k < |rs|
      ensures Start(rs + [r], k) == Start(rs, k)
    {
      assert (rs + [r])[..k] == rs[..k];
    }
  }

  lemma {:induction false} PayloadAtStart(before: bytes, r: Record, after: bytes)
    requires |Payload(r)| < TWO_32
    ensures PayloadAt(before + (RecordBytes(r) + after), |before|) == Ok(Payload(r))
    ensures GetU32((before + (RecordBytes(r) + after))[|before|..]) == |Payload(r)|
  {
    hide PutU32, Payload;
    var file, p := before + (RecordBytes(r) + after), Payload(r);
    assert file[|before|..] == PutU32(|p|) + (p + after);
    RoundTripU32(|p|, p + after);
    assert file[|before| + 4..|before| + 4 + |p|] == p;
  }

  /** Reading record k through the index gives the payload that was written as record k. */
  lemma {:induction false} PayloadOfRecord(rs: seq<Record>, k: nat)
    requires Sized(rs) && k < |rs|
    ensures PayloadAt(FileOf(rs), Start(rs, k)) == Ok(Payload(rs[k]))
    ensures GetU32(FileOf(rs)[Start(rs, k)..]) == |Payload(rs[k])|
  {
    hide FileOf, PayloadAt;
    SplitAt(rs, k);
    PayloadAtStart(FileOf(rs[..k]), rs[k], FileOf(rs[k + 1..]));
  }

  /** The walk from record k on finds the rest of the index, or stops at the first record over the limit. */
  lemma {:induction false} ScanFrom(rs: seq<Record>, k: nat)
    requires Sized(rs) && k <= |rs|
    ensures Scan(FileOf(rs), Start(rs, k)) ==
            if WithinLimitFrom(rs, k) then Ok(Positions(rs)[k..]) else Err(CorruptRecord)
    decreases |rs| - k
  {
    hide FileOf, Payload, Start, Positions;
    if k == |rs| {
      assert rs[..k] == rs;
      EndIsEnd(rs);
    } else {
      PayloadOfRecord(rs, k);
      SplitAt(rs, k);
      ScanFrom(rs, k + 1);
      assert WithinLimitFrom(rs, k) <==> |Payload(rs[k])| <= RECORD_LIMIT && WithinLimitFrom(rs, k + 1);
      assert Positions(rs)[k..] == [Start(rs, k)] + Positions(rs)[k + 1..];
    }
  }

  lemma {:induction false} EndIsEnd(rs: seq<Record>)
    ensures Start(rs, |rs|) == |FileOf(rs)|
  {
    assert rs[..|rs|] == rs;
  }

  /**
   Reopening a log rebuilds exactly the index it had, provided every record is within the limit;
   one record over the limit makes the whole file unreadable.
   */
  lemma {:induction false} ReopenExactlyWhenWithinLimit(rs: seq<Record>)
    requires Sized(rs)
    ensures WithinLimit(rs) ==> Scan(FileOf(rs), 0) == Ok(Positions(rs))
    ensures !WithinLimit(rs) ==> Scan(FileOf(rs), 0) == Err(CorruptRecord)
    ensures WithinLimit(rs) <==> forall k :: 0 <= k < |rs| ==> |rs[k].id| + 1 + |rs[k].body| <= 67_108_864
  {
    hide Scan, Payload, Positions;
    ScanFrom(rs, 0);
    assert rs[..0] == [] && Positions(rs)[0..] == Positions(rs);
  }

  /** The ids under which a body can be read back. */
  predicate ReadableId(id: bytes) {
    && LF !in id
    && |id| < TOKEN_LIMIT
    && (id != [] ==> id[|id| - 1] != CR)
  }

  /** A record gives its body back exactly when its id is one short line that does not end in CR. */
  lemma {:induction false} BodyExactlyWhenReadable(r: Record)
    ensures BodyOf(Payload(r)) == Ok(r.body) <==> ReadableId(r.id)
    ensures ReadableId(r.id) <==> 10 !in r.id && |r.id| < 65536 && (r.id == [] || r.id[|r.id| - 1] != 13)
  {
    var data, k := Payload(r), LineEnd(Payload(r));
    assert data[|r.id|] == LF;
    if LF in r.id {
      var i :| 0 <= i < |r.id| && r.id[i] == LF;
      assert data[i] == LF;
      assert k <= i;
    } else {
      assert forall i :: 0 <= i < |r.id| ==> data[i] == r.id[i];
      assert k == |r.id|;
      assert data[k + 1..] == r.body;
    }
  }
}
