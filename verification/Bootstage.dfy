/**
 Boot stage records: the fixed table with its id allocator, and stashing the table in memory
 for the next boot phase to pick up.
 */
module Bootstage {
  import opened Basics
  import opened StashFormat

  const BOOTSTAGEF_ALLOC := 2

  predicate HasAlloc(flags: nat)
  {
    flags / BOOTSTAGEF_ALLOC % 2 == 1
  }

  // ---------------------------------------------------------------------------------
  // The table as a value

  datatype Table = Table(records: seq<Record>, nextId: nat)

  /** `bootstage_add_record`: only the first event for an id is recorded. */
  function AddSpec(t: Table, id: nat, name: Name, flags: nat, mark: nat): Table
  {
    var slot := if HasAlloc(flags) then t.nextId else id;
    var nextId := if HasAlloc(flags) then t.nextId + 1 else t.nextId;
    Table(if slot < |t.records| && t.records[slot].time == 0
          then t.records[slot := t.records[slot].(time := mark, name := name, flags := flags, id := slot)]
          else t.records,
          nextId)
  }

  datatype StashResult = StashResult(buf: seq<Byte>, ok: bool)

  /** `bootstage_stash` on a buffer of `size` bytes at the start of `buf`. */
  function StashSpec(buf: seq<Byte>, size: int, records: seq<Record>, idUser: nat): (r: StashResult)
    requires size <= |buf| && ValidRecords(records)
    ensures |r.buf| == |buf|
  {
    if size < HEADER_SIZE then StashResult(buf, false)
    else
      var ts := Timed(records);
      TimedValid(records);
      var head := WriteAt(buf, 0, HeaderBytes(Header(BOOTSTAGE_VERSION, |ts|, 0, BOOTSTAGE_MAGIC)));
      var c := AppendAll(Cursor(head, HEADER_SIZE), size, Chunks(ts, idUser));
      if c.ptr > size then StashResult(c.buf, false)
      else StashResult(WriteAt(c.buf, 8, PutU32(c.ptr)), true)
  }

  lemma TimedValid(records: seq<Record>)
    requires ValidRecords(records)
    ensures ValidRecords(Timed(records))
  {
  }

  function HeaderIn(buf: seq<Byte>): Header
    requires |buf| >= HEADER_SIZE
  {
    Header(GetU32(buf, 0), GetU32(buf, 4), GetU32(buf, 8), GetU32(buf, 12))
  }

  /** The value of an expression of the code, which is computed in 32 bits. */
  function Wrap(x: int): (r: nat)
    ensures r < WORD_LIMIT
    ensures 0 <= x < WORD_LIMIT ==> r == x
  {
    x % WORD_LIMIT
  }

  /** The end of the buffer as an address; a size of -1 means that it is not known. */
  function EndAddress(base: nat, size: int): nat
  {
    if size == -1 then WORD_LIMIT - 1 else Wrap(base + size)
  }

  /** The checks of `bootstage_unstash` on the header of a stash at address `base`. */
  predicate AcceptsHeader(h: Header, base: nat, size: int, nextId: nat, idCount: nat)
  {
    && Wrap(base + HEADER_SIZE) <= EndAddress(base, size)
    && h.magic == BOOTSTAGE_MAGIC
    && Wrap(base + h.size) <= EndAddress(base, size)
    && Wrap(h.count * RECORD_SIZE) <= h.size
    && h.version == BOOTSTAGE_VERSION
    && Wrap(nextId + h.count) <= idCount
  }

  predicate Accepts(buf: seq<Byte>, base: nat, size: int, nextId: nat, idCount: nat)
    requires |buf| >= HEADER_SIZE
  {
    AcceptsHeader(HeaderIn(buf), base, size, nextId, idCount)
  }

  /** There are as many slots left as the header announces records. */
  predicate HasRoom(buf: seq<Byte>, nextId: nat, idCount: nat)
    requires |buf| >= HEADER_SIZE
  {
    nextId + HeaderIn(buf).count <= idCount
  }

  /** Where the name of record `i` starts. */
  function NameStart(buf: seq<Byte>, count: nat, i: nat): nat
  {
    if i == 0 then HEADER_SIZE + Wrap(count * RECORD_SIZE)
    else
      var at := NameStart(buf, count, i - 1);
      at + StringLength(buf, at) + 1
  }

  /** Record `i` of a stash as it was copied out, with the given name. */
  function FieldsAt(buf: seq<Byte>, count: nat, i: nat, name: Name): Record
    requires i < count && HEADER_SIZE + count * RECORD_SIZE <= |buf|
  {
    var at := HEADER_SIZE + i * RECORD_SIZE;
    Record(GetU32(buf, at), GetU32(buf, at + 4), name, GetU32(buf, at + 12), GetU32(buf, at + 16))
  }

  lemma FieldsRenamed(buf: seq<Byte>, count: nat, i: nat, name: Name)
    requires i < count && HEADER_SIZE + count * RECORD_SIZE <= |buf|
    ensures FieldsAt(buf, count, i, Null).(name := name) == FieldsAt(buf, count, i, name)
  {
  }

  /** Record `i` of a stash, with its name pointing into the stash itself. */
  function UnstashedAt(buf: seq<Byte>, base: nat, count: nat, i: nat): Record
    requires i < count && HEADER_SIZE + count * RECORD_SIZE <= |buf|
  {
    var at := NameStart(buf, count, i);
    var text := if at <= |buf| then buf[at..at + StringLength(buf, at)] else [];
    FieldsAt(buf, count, i, Str(base + at, text))
  }

  /** The records that an accepted stash announces can be read, and the table is one that memory holds. */
  predicate Readable(buf: seq<Byte>, base: nat, size: int, nextId: nat, idCount: nat)
  {
    && |buf| >= HEADER_SIZE && idCount * RECORD_SIZE < WORD_LIMIT
    && (Accepts(buf, base, size, nextId, idCount) && HasRoom(buf, nextId, idCount) ==>
          HEADER_SIZE + HeaderIn(buf).count * RECORD_SIZE <= |buf|)
  }

  /** A stash that is not accepted, or whose records have room. */
  predicate Harmless(buf: seq<Byte>, base: nat, size: int, nextId: nat, idCount: nat)
    requires |buf| >= HEADER_SIZE
  {
    Accepts(buf, base, size, nextId, idCount) ==> HasRoom(buf, nextId, idCount)
  }

  function UnstashSpec(t: Table, buf: seq<Byte>, base: nat, size: int): (t': Table)
    requires Readable(buf, base, size, t.nextId, |t.records|) && Harmless(buf, base, size, t.nextId, |t.records|)
    ensures |t'.records| == |t.records|
  {
    if !Accepts(buf, base, size, t.nextId, |t.records|) then t
    else
      var count := HeaderIn(buf).count;
      Table(seq(|t.records|, k requires 0 <= k < |t.records| =>
                  if t.nextId <= k < t.nextId + count then UnstashedAt(buf, base, count, k - t.nextId) else t.records[k]),
            t.nextId + count)
  }

  /** How an unstash ends; with an overrun it has written outside the table. */
  datatype Unstashed = Refused | Done | Overrun

  // ---------------------------------------------------------------------------------
  // The code

  class Bootstage {
    const record: array<Record>
    const idUser: nat
    var nextId: nat

    ghost predicate Valid()
      reads this, record
    {
      ValidRecords(record[..])
    }

    ghost function AsTable(): Table
      reads this, record
    {
      Table(record[..], nextId)
    }

    /** The initial table: no event but the very first slot, which is never free. */
    constructor (idUser: nat, userCount: nat)
      requires idUser >= 1
      ensures fresh(record) && record.Length == idUser + userCount && this.idUser == idUser && nextId == idUser
      ensures forall i :: 0 <= i < record.Length ==> record[i] == Record(if i == 0 then 1 else 0, 0, Null, 0, 0)
      ensures Valid()
    {
      this.idUser := idUser;
      nextId := idUser;
      record := new Record[idUser + userCount](i => Record(if i == 0 then 1 else 0, 0, Null, 0, 0));
    }

    /** `bootstage_add_record` */
    method AddRecord(id: nat, name: Name, flags: nat, mark: nat) returns (r: nat)
      modifies this`nextId, record
      ensures r == mark
      ensures AsTable() == AddSpec(old(AsTable()), id, name, flags, mark)
    {
      var slot := id;
      if HasAlloc(flags) {
        slot := nextId;
        nextId := nextId + 1;
      }
      if slot < record.Length {
        var rec := record[slot];
        if rec.time == 0 {
          record[slot] := rec.(time := mark, name := name, flags := flags, id := slot);
        }
      }
      return mark;
    }

    /** `append_data` */
    static method AppendData(buf: array<Byte>, ptr: nat, end: nat, data: seq<Byte>) returns (ptr': nat)
      requires end <= buf.Length
      modifies buf
      ensures Cursor(buf[..], ptr') == Append(Cursor(old(buf[..]), ptr), end, data)
    {
      ptr' := ptr + |data|;
      if ptr' > end {
        return;
      }
      CopyInto(buf, ptr, data);
    }

    static method CopyInto(buf: array<Byte>, at: nat, data: seq<Byte>)
      requires at + |data| <= buf.Length
      modifies buf
      ensures buf[..] == WriteAt(old(buf[..]), at, data)
    {
      for i := 0 to |data|
        invariant forall k :: 0 <= k < buf.Length ==>
                    buf[k] == if at <= k < at + i then data[k - at] else old(buf[k])
      {
        buf[at + i] := data[i];
      }
    }

    /** `bootstage_stash` */
    method Stash(buf: array<Byte>, size: int) returns (ok: bool)
      requires Valid() && size <= buf.Length && buf as object != record
      modifies buf
      ensures StashResult(buf[..], ok) == StashSpec(old(buf[..]), size, record[..], idUser)
    {
      hide Timed, AppendAll, Append, WriteAt, HeaderBytes, RecordBytes, NameBytes, Chunks;
      if size < HEADER_SIZE {
        return false;
      }
      ghost var records, ts := record[..], Timed(record[..]);
      TimedValid(records);
      var count := CountTimed();
      CopyInto(buf, 0, HeaderBytes(Header(BOOTSTAGE_VERSION, count, 0, BOOTSTAGE_MAGIC)));
      ghost var c := Cursor(buf[..], HEADER_SIZE);
      var ptr := AppendRecords(buf, HEADER_SIZE, size);
      ptr := AppendNames(buf, ptr, size);
      AppendAllTwice(c, size, RecordChunks(ts), NameChunks(ts, idUser));
      ChunksMeaning(ts, idUser);
      if ptr > size {
        return false;
      }
      CopyInto(buf, 8, PutU32(ptr));
      return true;
    }

    method CountTimed() returns (count: nat)
      ensures count == |Timed(record[..])|
    {
      count := 0;
      for id := 0 to record.Length
        invariant count == |Timed(record[..id])|
      {
        TimedNext(record[..], id);
        if record[id].time != 0 {
          count := count + 1;
        }
      }
      assert record[..record.Length] == record[..];
    }

    method AppendRecords(buf: array<Byte>, start: nat, end: nat) returns (ptr: nat)
      requires end <= buf.Length && buf as object != record
      modifies buf
      ensures Cursor(buf[..], ptr) == AppendAll(Cursor(old(buf[..]), start), end, RecordChunks(Timed(record[..])))
    {
      hide Timed, Append, RecordBytes;
      ghost var records := record[..];
      ghost var c := Cursor(buf[..], start);
      ptr := start;
      for id := 0 to record.Length
        invariant record[..] == records
        invariant Cursor(buf[..], ptr) == AppendAll(c, end, RecordChunks(Timed(records[..id])))
      {
        TimedNext(records, id);
        assert record[id] == records[id];
        if record[id].time != 0 {
          RecordChunksNext(Timed(records[..id]), records[id]);
          AppendAllNext(c, end, RecordChunks(Timed(records[..id])), RecordBytes(records[id]));
          ptr := AppendData(buf, ptr, end, RecordBytes(record[id]));
        }
      }
      assert records[..record.Length] == records;
    }

    method AppendNames(buf: array<Byte>, start: nat, end: nat) returns (ptr: nat)
      requires Valid() && end <= buf.Length && buf as object != record
      modifies buf
      ensures ValidRecords(Timed(record[..]))
      ensures Cursor(buf[..], ptr) == AppendAll(Cursor(old(buf[..]), start), end, NameChunks(Timed(record[..]), idUser))
    {
      hide Timed, Append, NameBytes;
      ghost var records := record[..];
      TimedValid(records);
      ghost var c := Cursor(buf[..], start);
      ptr := start;
      for id := 0 to record.Length
        invariant record[..] == records
        invariant ValidRecords(Timed(records[..id]))
        invariant Cursor(buf[..], ptr) == AppendAll(c, end, NameChunks(Timed(records[..id]), idUser))
      {
        TimedNext(records, id);
        assert record[id] == records[id];
        if record[id].time != 0 {
          NameChunksNext(Timed(records[..id]), records[id], idUser);
          AppendAllNext(c, end, NameChunks(Timed(records[..id]), idUser), NameBytes(records[id], idUser));
          ptr := AppendData(buf, ptr, end, NameBytes(record[id], idUser));
        }
      }
      assert records[..record.Length] == records;
    }

    /** The loop that copies the records out of a stash. */
    method FetchFields(buf: array<Byte>, count: nat)
      requires nextId + count <= record.Length && HEADER_SIZE + count * RECORD_SIZE <= buf.Length
      requires buf as object != record
      modifies record
      ensures forall k :: 0 <= k < record.Length ==>
                record[k] == if nextId <= k < nextId + count then FieldsAt(buf[..], count, k - nextId, Null)
                             else old(record[k])
    {
      hide FieldsAt;
      for i := 0 to count
        invariant buf[..] == old(buf[..])
        invariant forall k :: 0 <= k < record.Length ==>
                    record[k] == if nextId <= k < nextId + i then FieldsAt(buf[..], count, k - nextId, Null)
                                 else old(record[k])
      {
        record[nextId + i] := FieldsAt(buf[..], count, i, Null);
      }
    }

    /** The loop that points the names of the new records into the stash. */
    method FetchNames(buf: array<Byte>, base: nat, count: nat)
      requires nextId + count <= record.Length && HEADER_SIZE + count * RECORD_SIZE <= buf.Length
      requires buf as object != record
      requires forall k :: nextId <= k < nextId + count ==> record[k] == FieldsAt(buf[..], count, k - nextId, Null)
      modifies record
      ensures forall k :: 0 <= k < record.Length ==>
                record[k] == if nextId <= k < nextId + count then UnstashedAt(buf[..], base, count, k - nextId)
                             else old(record[k])
    {
      hide FieldsAt, StringLength, Wrap;
      var ptr := HEADER_SIZE + Wrap(count * RECORD_SIZE);
      for i := 0 to count
        invariant buf[..] == old(buf[..]) && ptr == NameStart(buf[..], count, i)
        invariant forall k :: 0 <= k < record.Length ==>
                    record[k] == if nextId <= k < nextId + i then UnstashedAt(buf[..], base, count, k - nextId)
                                 else old(record[k])
      {
        var length := StringLength(buf[..], ptr);
        var text := if ptr <= buf.Length then buf[ptr..ptr + length] else [];
        assert ptr <= buf.Length ==> text == buf[..][ptr..ptr + length];
        FieldsRenamed(buf[..], count, i, Str(base + ptr, text));
        record[nextId + i] := record[nextId + i].(name := Str(base + ptr, text));
        ptr := ptr + length + 1;
      }
    }

    /**
     `bootstage_unstash` of the memory in `buf`, which lies at address `base`.  Where the code goes
     on to write outside the table, this stops; what is written then is below.
     */
    method Unstash(buf: array<Byte>, base: nat, size: int) returns (r: Unstashed)
      requires Readable(buf[..], base, size, nextId, record.Length) && buf as object != record
      modifies this`nextId, record
      ensures r.Refused? <==> !Accepts(buf[..], base, size, old(nextId), record.Length)
      ensures r.Overrun? <==> !Harmless(buf[..], base, size, old(nextId), record.Length)
      ensures !r.Overrun? ==> AsTable() == UnstashSpec(old(AsTable()), buf[..], base, size)
    {
      hide GetU32, StringLength, Wrap, AcceptsHeader, HeaderIn, FieldsAt;
      ghost var bytes := buf[..];
      if !Accepts(buf[..], base, size, nextId, record.Length) {
        return Refused;
      }
      if nextId + HeaderIn(buf[..]).count > record.Length {
        return Overrun;
      }
      var count := HeaderIn(buf[..]).count;
      FetchFields(buf, count);
      FetchNames(buf, base, count);
      nextId := Wrap(nextId + count);
      assert record[..] == UnstashSpec(old(AsTable()), bytes, base, size).records;
      return Done;
    }
  }

  // ---------------------------------------------------------------------------------
  // Steps of the loops

  lemma TimedNext(records: seq<Record>, id: nat)
    requires id < |records|
    ensures Timed(records[..id + 1]) ==
              if records[id].time != 0 then Timed(records[..id]) + [records[id]] else Timed(records[..id])
  {
    assert records[..id + 1][..id] == records[..id];
  }

  lemma RecordChunksNext(ts: seq<Record>, r: Record)
    ensures RecordChunks(ts + [r]) == RecordChunks(ts) + [RecordBytes(r)]
  {
    hide RecordBytes;
  }

  lemma NameChunksNext(ts: seq<Record>, r: Record, idUser: nat)
    requires ValidRecords(ts) && ValidRecord(r)
    ensures ValidRecords(ts + [r])
    ensures NameChunks(ts + [r], idUser) == NameChunks(ts, idUser) + [NameBytes(r, idUser)]
  {
    hide NameBytes, ValidRecord;
  }

  lemma AppendAllNext(c: Cursor, end: nat, cs: seq<seq<Byte>>, data: seq<Byte>)
    requires end <= |c.buf|
    ensures AppendAll(c, end, cs + [data]) == Append(AppendAll(c, end, cs), end, data)
  {
    assert (cs + [data])[..|cs|] == cs;
  }

  lemma {:induction false} AppendAllTwice(c: Cursor, end: nat, a: seq<seq<Byte>>, b: seq<seq<Byte>>)
    requires end <= |c.buf|
    ensures AppendAll(AppendAll(c, end, a), end, b) == AppendAll(c, end, a + b)
    decreases |b|
  {
    hide Append;
    if b == [] {
      assert a + b == a;
    } else {
      var n := |b| - 1;
      assert (a + b)[..|a + b| - 1] == a + b[..n];
      AppendAllTwice(c, end, a, b[..n]);
    }
  }

  lemma ChunksMeaning(ts: seq<Record>, idUser: nat)
    requires ValidRecords(ts)
    ensures Chunks(ts, idUser) == RecordChunks(ts) + NameChunks(ts, idUser)
  {
  }
}
