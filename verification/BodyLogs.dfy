/** The two body logs: the file log with its index, and the in-memory log it stands in for. */
module BodyLogs {
  import opened Wrappers
  import opened Bytes
  import opened LogFormat
  import opened Ranging

  // ---------------------------------------------------------------- the file log as values

  datatype FileState = FileState(file: bytes, offsets: map<int, nat>)

  function AppendTo(s: FileState, id: bytes, body: bytes): (FileState, Result<int, LogError>) {
    if |body| > RECORD_LIMIT then (s, Err(BodyTooLarge))
    else
      (FileState(s.file + RecordBytes(Record(id, body)), s.offsets[|s.offsets| := |s.file|]), Ok(|s.offsets|))
  }

  function ReadFrom(s: FileState, offset: int): Result<bytes, LogError> {
    if offset !in s.offsets then Err(OffsetNotFound)
    else
      var data :- PayloadAt(s.file, s.offsets[offset]);
      BodyOf(data)
  }

  /** Closing the log and opening it again: the file stays, the index is rebuilt from it. */
  function Reopened(s: FileState): Result<FileState, LogError> {
    var ps :- Scan(s.file, 0);
    Ok(FileState(s.file, map k | 0 <= k < |ps| :: ps[k]))
  }

  /** The state of a log that holds exactly these records. */
  ghost predicate Holds(s: FileState, rs: seq<Record>) {
    s == FileState(FileOf(rs), Index(rs)) && Sized(rs)
  }

  /** A log file being written: its bytes, its index, and the next offset. */
  datatype Compaction = Compaction(file: bytes, offsets: map<int, nat>, next: nat)

  /** The live ones of the first n offsets, copied to a new file one after the other. */
  function Compacted(s: FileState, live: set<int>, n: nat): Result<Compaction, LogError> {
    if n == 0 then Ok(Compaction([], map[], 0))
    else
      var c :- Compacted(s, live, n - 1);
      if n - 1 !in live then Ok(c)
      else
        var data :- PayloadAt(s.file, if n - 1 in s.offsets then s.offsets[n - 1] else 0);
        Ok(Compaction(c.file + PutU32(|data| % TWO_32) + data, c.offsets[c.next := |c.file|], c.next + 1))
  }

  lemma {:induction false} CompactionFails(s: FileState, live: set<int>, m: nat, n: nat)
    requires m <= n && Compacted(s, live, m).Err?
    ensures Compacted(s, live, n) == Compacted(s, live, m)
  {
    hide PayloadAt, PutU32;
    if m < n {
      CompactionFails(s, live, m, n - 1);
    }
  }

  // ---------------------------------------------------------------- the file log as it runs

  /** An operating-system file: bytes and a cursor. */
  class File {
    var data: bytes
    var pos: nat

    constructor (data: bytes)
      ensures this.data == data && pos == 0
    {
      this.data := data;
      this.pos := 0;
    }

    method Seek(to: nat)
      modifies this`pos
      ensures pos == to
    {
      pos := to;
    }

    /** Exactly n bytes, or nothing when the file ends before. */
    method ReadFull(n: nat) returns (r: Option<bytes>)
      modifies this`pos
      ensures if |data| - old(pos) < n then r == None
              else r == Some(data[old(pos)..old(pos) + n]) && pos == old(pos) + n
    {
      if |data| - pos < n {
        return None;
      }
      r := Some(data[pos..pos + n]);
      pos := pos + n;
    }

    method ReadLength() returns (r: Option<uint32>)
      modifies this`pos
      ensures if |data| - old(pos) < 4 then r == None
              else r == Some(GetU32(data[old(pos)..])) && pos == old(pos) + 4
    {
      var b := ReadFull(4);
      if b.None? {
        return None;
      }
      assert data[old(pos)..] == b.value + data[old(pos) + 4..];
      GetU32Local(b.value, data[old(pos) + 4..]);
      r := Some(GetU32(b.value));
    }

    /** Writes at the end of the file. */
    method Write(b: bytes)
      requires pos == |data|
      modifies this
      ensures data == old(data) + b && pos == |data|
    {
      data := data + b;
      pos := pos + |b|;
    }
  }

  class FileLog {
    var file: File
    var offsets: map<int, nat>

    ghost function View(): FileState
      reads this, file
    {
      FileState(file.data, offsets)
    }

    constructor (file: File)
      ensures this.file == file && offsets == map[]
    {
      this.file := file;
      this.offsets := map[];
    }

    /** Walks the file from its start; a fresh log then has the index of what it found. */
    method Reindex() returns (r: Result<(), LogError>)
      requires offsets == map[]
      modifies this`offsets, file`pos
      ensures match Reopened(old(View()))
              case Ok(s) => r == Ok(()) && View() == s
              case Err(e) => r == Err(e)
    {
      hide GetU32;
      file.Seek(0);
      var logical := 0;
      ghost var found: seq<nat> := [];
      ghost var all := Scan(file.data, 0);
      assert all.Ok? ==> [] + all.value == all.value;
      while true
        invariant logical == |found| && offsets == map k | 0 <= k < |found| :: found[k]
        invariant all == match Scan(file.data, file.pos)
                         case Ok(rest) => Ok(found + rest)
                         case Err(e) => Err(e)
        decreases |file.data| - file.pos
      {
        var pos := file.pos;
        if pos >= |file.data| {
          break;
        }
        var n := file.ReadLength();
        if n.None? {
          return Err(ShortRead);
        }
        if n.value > RECORD_LIMIT {
          return Err(CorruptRecord);
        }
        ghost var next := Scan(file.data, pos + 4 + n.value);
        if next.Ok? {
          assert found + ([pos] + next.value) == found + [pos] + next.value;
        }
        offsets := offsets[logical := pos];
        file.Seek(file.pos + n.value);
        logical := logical + 1;
        found := found + [pos];
      }
      assert found + [] == found;
      file.Seek(|file.data|);
      r := Ok(());
    }

    method Append(id: bytes, body: bytes) returns (r: Result<int, LogError>)
      modifies this`offsets, file
      ensures (View(), r) == AppendTo(old(View()), id, body)
      ensures if |body| > 67_108_864 then r == Err(BodyTooLarge) && View() == old(View())
              else r == Ok(|old(offsets)|) && offsets == old(offsets)[|old(offsets)| := |old(file.data)|]
                   && old(file.data) <= file.data && |file.data| == |old(file.data)| + 5 + |id| + |body|
    {
      if |body| > RECORD_LIMIT {
        return Err(BodyTooLarge);
      }
      file.Seek(|file.data|);
      var pos := file.pos;
      var record := id + [LF] + body;
      file.Write(PutU32(|record| % TWO_32));
      file.Write(record);
      assert file.data == old(file.data) + RecordBytes(Record(id, body));
      var logical := |offsets|;
      offsets := offsets[logical := pos];
      r := Ok(logical);
    }

    method Read(offset: int) returns (r: Result<bytes, LogError>)
      modifies file`pos
      ensures r == ReadFrom(View(), offset) && View() == old(View())
    {
      if offset !in offsets {
        return Err(OffsetNotFound);
      }
      var pos := offsets[offset];
      file.Seek(pos);
      var n := file.ReadLength();
      if n.None? {
        return Err(ShortRead);
      }
      var data := file.ReadFull(n.value);
      if data.None? {
        return Err(ShortRead);
      }
      r := BodyOf(data.value);
    }

    /** Copies the live records to a new file, in order, and renumbers them; a failing read changes nothing. */
    method Compact(live: set<int>) returns (r: Result<(), LogError>)
      modifies this, file`pos
      ensures match Compacted(old(View()), live, |old(offsets)|)
              case Ok(c) => r == Ok(()) && fresh(file) && View() == FileState(c.file, c.offsets)
              case Err(e) => r == Err(e) && View() == old(View())
    {
      hide GetU32, PutU32;
      var tmp := new File([]);
      var newOffsets: map<int, nat> := map[];
      var next := 0;
      ghost var s := View();
      for offset := 0 to |offsets|
        invariant Compacted(s, live, offset) == Ok(Compaction(tmp.data, newOffsets, next)) && tmp.pos == |tmp.data|
        invariant unchanged(this) && file.data == old(file.data) && fresh(tmp)
      {
        if offset !in live {
          continue;
        }
        var pos := if offset in offsets then offsets[offset] else 0;  // a Go map gives 0 for a missing key
        file.Seek(pos);
        var n := file.ReadLength();
        if n.None? {
          CompactionFails(s, live, offset + 1, |offsets|);
          return Err(ShortRead);
        }
        var data := file.ReadFull(n.value);
        if data.None? {
          CompactionFails(s, live, offset + 1, |offsets|);
          return Err(ShortRead);
        }
        var newPos := tmp.pos;
        tmp.Write(PutU32(n.value));
        tmp.Write(data.value);
        newOffsets := newOffsets[next := newPos];
        next := next + 1;
      }
      file := new File(tmp.data);
      offsets := newOffsets;
      r := Ok(());
    }
  }

  lemma {:induction false} EmptyLog()
    ensures FileOf([]) == [] && Index([]) == map[]
    ensures forall rs: seq<Record>, live :: Kept(rs, live, 0) == []
  {}

  lemma {:induction false} AppendRecord(rs: seq<Record>, r: Record)
    ensures FileOf(rs + [r]) == FileOf(rs) + RecordBytes(r)
    ensures Index(rs + [r]) == Index(rs)[|rs| := |FileOf(rs)|]
    ensures |Payload(r)| < TWO_32 ==> RecordBytes(r) == PutU32(|Payload(r)|) + Payload(r)
  {
    hide PutU32, Payload;
    FileOfAppend(rs, [r]);
    assert FileOf([r]) == RecordBytes(r) + FileOf([]);
    IndexAppend(rs, r);
  }

  // ---------------------------------------------------------------- compaction

  /** The live ones among the first n records. */
  function Kept(rs: seq<Record>, live: set<int>, n: nat): seq<Record>
    requires n <= |rs|
  {
    if n == 0 then [] else Kept(rs, live, n - 1) + (if n - 1 in live then [rs[n - 1]] else [])
  }

  /** The number of live offsets below k: where offset k ends up. */
  function Rank(live: set<int>, k: nat): nat {
    if k == 0 then 0 else Rank(live, k - 1) + (if k - 1 in live then 1 else 0)
  }

  /** Compaction keeps one record per live offset, record k at its rank, and nothing else. */
  lemma {:induction false} KeptAtRank(rs: seq<Record>, live: set<int>, n: nat)
    requires n <= |rs|
    ensures |Kept(rs, live, n)| == Rank(live, n)
    ensures forall k: nat :: k < n && k in live ==>
              Rank(live, k) < Rank(live, n) && Kept(rs, live, n)[Rank(live, k)] == rs[k]
  {
    if n > 0 {
      KeptAtRank(rs, live, n - 1);
    }
  }

  lemma {:induction false} KeptNext(rs: seq<Record>, live: set<int>, n: nat)
    requires n < |rs|
    ensures Kept(rs, live, n + 1) == if n in live then Kept(rs, live, n) + [rs[n]] else Kept(rs, live, n)
  {}

  lemma {:induction false} KeptSized(rs: seq<Record>, live: set<int>, n: nat)
    requires Sized(rs) && n <= |rs|
    ensures Sized(Kept(rs, live, n))
  {
    if n > 0 {
      KeptSized(rs, live, n - 1);
    }
  }

  /** Compacting a log that holds these records succeeds, and the new one holds exactly the live ones, in order. */
  lemma {:induction false} CompactionHolds(s: FileState, rs: seq<Record>, live: set<int>, n: nat)
    requires Holds(s, rs) && n <= |rs|
    ensures var kept := Kept(rs, live, n);
            && Compacted(s, live, n) == Ok(Compaction(FileOf(kept), Index(kept), |kept|))
            && Holds(FileState(FileOf(kept), Index(kept)), kept)
    ensures |s.offsets| == |rs|
  {
    hide FileOf, RecordBytes, Start, PutU32, Payload, PayloadAt, GetU32;
    IndexSize(rs);
    KeptSized(rs, live, n);
    if n == 0 {
      EmptyLog();
    } else {
      CompactionHolds(s, rs, live, n - 1);
      KeptNext(rs, live, n - 1);
      if n - 1 in live {
        assert n - 1 in s.offsets && s.offsets[n - 1] == Start(rs, n - 1);
        assert |Payload(rs[n - 1])| < TWO_32;
        PayloadOfRecord(rs, n - 1);
        AppendRecord(Kept(rs, live, n - 1), rs[n - 1]);
        var kept, data := FileOf(Kept(rs, live, n - 1)), Payload(rs[n - 1]);
        assert kept + PutU32(|data| % TWO_32) + data == kept + (PutU32(|data|) + data);
      }
    }
  }

  /** Reading a log that holds these records: the bodies by offset, and nothing beyond them. */
  lemma {:induction false} ReadOfHeld(s: FileState, rs: seq<Record>, offset: int)
    requires Holds(s, rs)
    ensures ReadFrom(s, offset) ==
            if 0 <= offset < |rs| then BodyOf(Payload(rs[offset])) else Err(OffsetNotFound)
  {
    hide FileOf, BodyOf, PayloadAt, Payload;
    if 0 <= offset < |rs| {
      PayloadOfRecord(rs, offset);
    }
  }

  /** After compaction each live offset reads the same at its rank, and nothing else is readable. */
  lemma {:induction false} CompactionKeepsReads(s: FileState, t: FileState, rs: seq<Record>, live: set<int>, c: Compaction)
    requires Holds(s, rs) && Compacted(s, live, |s.offsets|) == Ok(c) && t == FileState(c.file, c.offsets)
    ensures forall k: nat :: k < |rs| && k in live ==> ReadFrom(t, Rank(live, k)) == ReadFrom(s, k)
    ensures forall j :: ReadFrom(t, j) != Err(OffsetNotFound) ==> 0 <= j < Rank(live, |rs|)
  {
    hide Holds, ReadFrom, Compacted;
    CompactionHolds(s, rs, live, |rs|);
    KeptAtRank(rs, live, |rs|);
    forall k: nat | k < |rs| && k in live
      ensures ReadFrom(t, Rank(live, k)) == ReadFrom(s, k)
    {
      ReadOfHeld(s, rs, k);
      ReadOfHeld(t, Kept(rs, live, |rs|), Rank(live, k));
    }
    forall j | ReadFrom(t, j) != Err(OffsetNotFound)
      ensures 0 <= j < Rank(live, |rs|)
    {
      ReadOfHeld(t, Kept(rs, live, |rs|), j);
    }
  }

  lemma {:induction false} RankAtMost(live: set<int>, k: nat)
    ensures Rank(live, k) <= k
    ensures Rank(live, k) == k <==> forall j :: 0 <= j < k ==> j in live
  {
    if k > 0 {
      RankAtMost(live, k - 1);
    }
  }

  /**
   Offsets handed out before compaction stay good exactly when the live ones are the oldest ones,
   with no gap: otherwise some live offset now names another record or none.
   */
  lemma {:induction false} OffsetsSurviveExactlyWhen(live: set<int>, n: nat)
    ensures (forall k: nat :: k < n && k in live ==> Rank(live, k) == k)
            <==> (forall j, k: nat :: 0 <= j < k < n && k in live ==> j in live)
  {
    forall k: nat | k < n && k in live
      ensures Rank(live, k) == k <==> forall j :: 0 <= j < k ==> j in live
    {
      RankAtMost(live, k);
    }
  }

  // ---------------------------------------------------------------- the in-memory log

  datatype MemoryState = MemoryState(records: map<int, bytes>, next: nat)

  function MemoryAppend(m: MemoryState, body: bytes): (MemoryState, Result<int, LogError>) {
    (MemoryState(m.records[m.next := body], m.next + 1), Ok(m.next))
  }

  function MemoryRead(m: MemoryState, offset: int): Result<bytes, LogError> {
    if offset in m.records then Ok(m.records[offset]) else Err(OffsetNotFound)
  }

  /** Exactly the live offsets are left, under the same number and with the same body. */
  ghost predicate MemoryCompacted(m: MemoryState, n: MemoryState, live: set<int>) {
    && n.next == m.next
    && (forall k :: k in n.records <==> k in m.records && k in live)
    && (forall k :: k in n.records ==> n.records[k] == m.records[k])
  }

  /** Of the first i offsets exactly the live ones are left, and all the others. */
  ghost predicate Dropping(was: map<int, bytes>, records: map<int, bytes>, order: seq<int>, i: nat, live: set<int>)
    requires i <= |order|
  {
    && (forall k :: k in records ==> k in was && records[k] == was[k])
    && (forall k :: k in was ==> (k in records <==> k in live || k !in order[..i]))
  }

  lemma {:induction false} DropNext(was: map<int, bytes>, records: map<int, bytes>, order: seq<int>, i: nat, live: set<int>)
    requires i < |order| && Dropping(was, records, order, i, live)
    ensures Dropping(was, if order[i] in live then records else records - {order[i]}, order, i + 1, live)
  {
    assert order[..i + 1] == order[..i] + [order[i]];
  }

  class MemoryLog {
    var records: map<int, bytes>
    var next: nat

    ghost function View(): MemoryState
      reads this
    {
      MemoryState(records, next)
    }

    constructor ()
      ensures View() == MemoryState(map[], 0)
    {
      records := map[];
      next := 0;
    }

    method Append(body: bytes) returns (r: Result<int, LogError>)
      modifies this
      ensures (View(), r) == MemoryAppend(old(View()), body)
    {
      var off := next;
      next := next + 1;
      records := records[off := body];
      r := Ok(off);
    }

    method Read(offset: int) returns (r: Result<bytes, LogError>)
      ensures r == MemoryRead(View(), offset)
    {
      if offset !in records {
        return Err(OffsetNotFound);
      }
      r := Ok(records[offset]);
    }

    /** Deletes what is not live; the offsets of the rest do not change. */
    method Compact(live: set<int>)
      modifies this`records
      ensures MemoryCompacted(old(View()), View(), live)
    {
      hide Distinct;
      var order := Range(records.Keys);
      for i := 0 to |order|
        invariant Dropping(old(records), records, order, i, live)
      {
        DropNext(old(records), records, order, i, live);
        var off := order[i];
        if off !in live {
          records := records - {off};
        }
      }
    }
  }

  /** The state of an in-memory log that holds exactly the bodies of these records. */
  ghost predicate MemoryHolds(m: MemoryState, rs: seq<Record>) {
    m == MemoryState(map k | 0 <= k < |rs| :: rs[k].body, |rs|)
  }

  // ---------------------------------------------------------------- runs

  datatype LogCall = Append(id: bytes, body: bytes) | Read(offset: int) | Restart

  /** What a caller sees of one call. */
  datatype Seen = Appended(result: Result<int, LogError>) | Was(body: Result<bytes, LogError>) | Restarted(ok: bool)

  function FileRun(s: FileState, calls: seq<LogCall>): seq<Seen>
    decreases |calls|
  {
    if calls == [] then []
    else match calls[0]
      case Append(id, body) =>
        var (t, r) := AppendTo(s, id, body);
        [Appended(r)] + FileRun(t, calls[1..])
      case Read(offset) => [Was(ReadFrom(s, offset))] + FileRun(s, calls[1..])
      case Restart =>
        match Reopened(s)
        case Err(_) => [Restarted(false)]
        case Ok(t) => [Restarted(true)] + FileRun(t, calls[1..])
  }

  function MemoryRun(m: MemoryState, calls: seq<LogCall>): seq<Seen>
    decreases |calls|
  {
    if calls == [] then []
    else match calls[0]
      case Append(_, body) =>
        var (n, r) := MemoryAppend(m, body);
        [Appended(r)] + MemoryRun(n, calls[1..])
      case Read(offset) => [Was(MemoryRead(m, offset))] + MemoryRun(m, calls[1..])
      case Restart => [Restarted(true)] + MemoryRun(m, calls[1..])
  }

  /** An append whose id can be read back and whose whole record is within the limit. */
  predicate Admissible(call: LogCall) {
    call.Append? ==> ReadableId(call.id) && |call.id| + 1 + |call.body| <= RECORD_LIMIT
  }

  predicate ReadableRecords(rs: seq<Record>) {
    WithinLimit(rs) && forall k :: 0 <= k < |rs| ==> ReadableId(rs[k].id)
  }

  lemma {:induction false} AppendHolds(s: FileState, m: MemoryState, rs: seq<Record>, id: bytes, body: bytes)
    requires Holds(s, rs) && MemoryHolds(m, rs) && ReadableRecords(rs)
    requires Admissible(Append(id, body))
    ensures var r := rs + [Record(id, body)];
            && Holds(AppendTo(s, id, body).0, r) && MemoryHolds(MemoryAppend(m, body).0, r) && ReadableRecords(r)
            && AppendTo(s, id, body).1 == MemoryAppend(m, body).1 == Ok(|rs|)
  {
    hide FileOf, RecordBytes, Start;
    var r := Record(id, body);
    AppendRecord(rs, r);
    IndexSize(rs);
    assert |Payload(r)| <= RECORD_LIMIT;
  }

  lemma {:induction false} IndexSize(rs: seq<Record>)
    ensures |Index(rs)| == |rs|
  {
    hide Start;
    if rs != [] {
      var front := rs[..|rs| - 1];
      IndexSize(front);
      assert rs == front + [rs[|rs| - 1]];
      IndexAppend(front, rs[|rs| - 1]);
    }
  }

  lemma {:induction false} ReopenHolds(s: FileState, rs: seq<Record>)
    requires Holds(s, rs) && WithinLimit(rs)
    ensures Reopened(s) == Ok(s)
  {
    hide Scan, FileOf, Start;
    ReopenExactlyWhenWithinLimit(rs);
    var ps := Positions(rs);
    assert (map k | 0 <= k < |ps| :: ps[k]) == Index(rs);
  }

  lemma {:induction false} ReadAgrees(s: FileState, m: MemoryState, rs: seq<Record>, offset: int)
    requires Holds(s, rs) && MemoryHolds(m, rs) && ReadableRecords(rs)
    ensures ReadFrom(s, offset) == MemoryRead(m, offset)
  {
    hide Holds, ReadFrom, BodyOf;
    ReadOfHeld(s, rs, offset);
    if 0 <= offset < |rs| {
      BodyExactlyWhenReadable(rs[offset]);
    }
  }

  /**
   Refinement: through any sequence of appends, reads and restarts, callers see the same offsets
   and bodies from the file log as from the in-memory log.
   */
  lemma {:induction false} FileRefinesMemory(s: FileState, m: MemoryState, rs: seq<Record>, calls: seq<LogCall>)
    requires Holds(s, rs) && MemoryHolds(m, rs) && ReadableRecords(rs)
    requires forall c :: c in calls ==> Admissible(c)
    ensures FileRun(s, calls) == MemoryRun(m, calls)
    decreases |calls|
  {
    hide Holds, MemoryHolds, ReadableRecords, Admissible, AppendTo, MemoryAppend, ReadFrom, MemoryRead, Reopened;
    if calls != [] {
      match calls[0]
      case Append(id, body) =>
        AppendHolds(s, m, rs, id, body);
        FileRefinesMemory(AppendTo(s, id, body).0, MemoryAppend(m, body).0, rs + [Record(id, body)], calls[1..]);
      case Read(offset) =>
        ReadAgrees(s, m, rs, offset);
        FileRefinesMemory(s, m, rs, calls[1..]);
      case Restart =>
        Reopens(s, rs);
        FileRefinesMemory(s, m, rs, calls[1..]);
    }
  }

  lemma {:induction false} Reopens(s: FileState, rs: seq<Record>)
    requires Holds(s, rs) && ReadableRecords(rs)
    ensures Reopened(s) == Ok(s)
  {
    ReopenHolds(s, rs);
  }

  /** The same for logs that start empty. */
  lemma {:induction false} FileLogActsLikeMemoryLog(calls: seq<LogCall>)
    requires forall c :: c in calls ==> Admissible(c)
    ensures FileRun(FileState([], map[]), calls) == MemoryRun(MemoryState(map[], 0), calls)
  {
    hide FileRun, MemoryRun;
    EmptyLog();
    FileRefinesMemory(FileState([], map[]), MemoryState(map[], 0), [], calls);
  }

  /**
   Compacting both logs: a live body is found at its old offset in memory and at the rank of that
   offset in the file.
   */
  lemma {:induction false} CompactionsAgree(s: FileState, t: FileState, was: MemoryState, m: MemoryState,
                                            rs: seq<Record>, live: set<int>, c: Compaction, k: nat)
    requires Holds(s, rs) && MemoryHolds(was, rs) && ReadableRecords(rs)
    requires Compacted(s, live, |s.offsets|) == Ok(c) && t == FileState(c.file, c.offsets)
    requires MemoryCompacted(was, m, live) && k < |rs| && k in live
    ensures ReadFrom(t, Rank(live, k)) == MemoryRead(m, k) == MemoryRead(was, k)
  {
    hide Holds, ReadFrom, Compacted, ReadableRecords;
    CompactionKeepsReads(s, t, rs, live, c);
    ReadAgrees(s, was, rs, k);
  }

  /**
   Without the bound on the whole record the refinement fails: Append accepts a body of the full
   limit under any id, and the log then cannot be reopened.  (An id of nearly 4 GiB would wrap the
   length of the record around.)
   */
  lemma {:induction false} LargestBodyCannotBeReopened(id: bytes)
    requires |id| + 1 + RECORD_LIMIT < TWO_32
    ensures var body: bytes := seq(RECORD_LIMIT, _ => 0);
            var (s, r) := AppendTo(FileState([], map[]), id, body);
            r.Ok? && Reopened(s) == Err(CorruptRecord)
  {
    hide Scan, RecordBytes, FileOf, Payload;
    var body: bytes := seq(RECORD_LIMIT, _ => 0);
    var rs := [Record(id, body)];
    EmptyLog();
    AppendRecord([], rs[0]);
    assert [] + rs == rs;
    assert |Payload(rs[0])| == |id| + 1 + RECORD_LIMIT;
    assert !WithinLimitFrom(rs, 0);
    ReopenExactlyWhenWithinLimit(rs);
  }
}
