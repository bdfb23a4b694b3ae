/**
 What stashing boot stage records guarantees: nothing is written outside the buffer, a failed
 stash is recognised, and unstashing a successful one brings the records back.
 */
module Stashing {
  import opened Basics
  import opened StashFormat
  import opened Bootstage

  /** The bytes of a stash behind its header. */
  function Payload(records: seq<Record>, idUser: nat): seq<Byte>
    requires ValidRecords(records)
  {
    TimedValid(records);
    Concat(Chunks(Timed(records), idUser))
  }

  /** The part of the payload that a buffer of `size` bytes takes: the longest prefix of whole chunks. */
  function Written(records: seq<Record>, idUser: nat, size: nat): seq<Byte>
    requires ValidRecords(records) && size >= HEADER_SIZE
  {
    TimedValid(records);
    var cs := Chunks(Timed(records), idUser);
    Concat(cs[..Fitting(cs, size - HEADER_SIZE)])
  }

  function StashHeader(records: seq<Record>, size: nat): Header
  {
    Header(BOOTSTAGE_VERSION, |Timed(records)|, size, BOOTSTAGE_MAGIC)
  }

  lemma PatchSize(h: Header, size: nat, rest: seq<Byte>)
    ensures WriteAt(HeaderBytes(h) + rest, 8, PutU32(size)) == HeaderBytes(h.(size := size)) + rest
  {
    hide PutU32;
    var v, c, s, m := PutU32(h.version), PutU32(h.count), PutU32(h.size), PutU32(h.magic);
    var buf := HeaderBytes(h) + rest;
    assert buf == (v + c) + s + (m + rest);
    assert buf[..8] == v + c;
    assert buf[12..] == m + rest;
    assert HeaderBytes(h.(size := size)) + rest == (v + c) + PutU32(size) + (m + rest);
  }

  lemma WriteHeaderFirst(buf: seq<Byte>, h: Header, data: seq<Byte>)
    requires HEADER_SIZE + |data| <= |buf|
    ensures WriteAt(WriteAt(buf, 0, HeaderBytes(h)), HEADER_SIZE, data)
         == HeaderBytes(h) + data + buf[HEADER_SIZE + |data|..]
  {
    hide HeaderBytes;
  }

  /**
   The whole effect of a stash: it succeeds exactly if header, records and names fit; it writes
   the header and the longest prefix of whole chunks that fits, and no byte at or beyond `size`.
   */
  lemma StashEffect(buf: seq<Byte>, size: int, records: seq<Record>, idUser: nat)
    requires size <= |buf| && ValidRecords(records)
    ensures var r := StashSpec(buf, size, records, idUser);
            if size < HEADER_SIZE then r == StashResult(buf, false)
            else
              var total := HEADER_SIZE + |Payload(records, idUser)|;
              var written := Written(records, idUser, size);
              && (r.ok <==> total <= size)
              && (r.ok ==> written == Payload(records, idUser))
              && HEADER_SIZE + |written| <= size
              && r.buf == HeaderBytes(StashHeader(records, if r.ok then total else 0)) + written
                          + buf[HEADER_SIZE + |written|..]
  {
    hide HeaderBytes, WriteAt, AppendAll, PutU32, Chunks, Fitting, Concat;
    if size >= HEADER_SIZE {
      var ts := Timed(records);
      TimedValid(records);
      var cs := Chunks(ts, idUser);
      var h := StashHeader(records, 0);
      var head := WriteAt(buf, 0, HeaderBytes(h));
      var written := Written(records, idUser, size);
      AppendAllMoves(Cursor(head, HEADER_SIZE), size, cs);
      AppendAllWrites(Cursor(head, HEADER_SIZE), size, cs);
      WriteHeaderFirst(buf, h, written);
      if HEADER_SIZE + |Concat(cs)| <= size {
        assert cs[..|cs|] == cs;
        FittingIsLongest(cs, size - HEADER_SIZE, |cs|);
        var rest := written + buf[HEADER_SIZE + |written|..];
        assert HeaderBytes(h) + written + buf[HEADER_SIZE + |written|..] == HeaderBytes(h) + rest;
        PatchSize(h, HEADER_SIZE + |Concat(cs)|, rest);
        var h' := h.(size := HEADER_SIZE + |Concat(cs)|);
        assert HeaderBytes(h') + written + buf[HEADER_SIZE + |written|..] == HeaderBytes(h') + rest;
      }
    }
  }

  /** No byte at or beyond the end of the buffer changes. */
  lemma StashStaysInside(buf: seq<Byte>, size: nat, records: seq<Record>, idUser: nat)
    requires size <= |buf| && ValidRecords(records)
    ensures StashSpec(buf, size, records, idUser).buf[size..] == buf[size..]
  {
    hide StashSpec, Written, Payload, HeaderBytes;
    StashEffect(buf, size, records, idUser);
    if size >= HEADER_SIZE {
      var n := HEADER_SIZE + |Written(records, idUser, size)|;
      var r := StashSpec(buf, size, records, idUser);
      assert r.buf[n..] == buf[n..];
      assert r.buf[size..] == r.buf[n..][size - n..];
      assert buf[size..] == buf[n..][size - n..];
    }
  }

  predicate ValidHeader(h: Header)
  {
    h.version < WORD_LIMIT && h.count < WORD_LIMIT && h.size < WORD_LIMIT && h.magic < WORD_LIMIT
  }

  lemma ReadHeader(h: Header, rest: seq<Byte>)
    requires ValidHeader(h)
    ensures HeaderIn(HeaderBytes(h) + rest) == h
  {
    hide PutU32, GetU32;
    var buf := HeaderBytes(h) + rest;
    assert buf[0..4] == PutU32(h.version);
    assert buf[4..8] == PutU32(h.count);
    assert buf[8..12] == PutU32(h.size);
    assert buf[12..16] == PutU32(h.magic);
    GetU32At(buf, 0, h.version);
    GetU32At(buf, 4, h.count);
    GetU32At(buf, 8, h.size);
    GetU32At(buf, 12, h.magic);
  }

  lemma NoRecordsNoPayload(records: seq<Record>, idUser: nat)
    requires ValidRecords(records) && Timed(records) == []
    ensures Payload(records, idUser) == []
  {
    assert RecordChunks([]) + NameChunks([], idUser) == [];
  }

  /** A stash that ran out of space leaves a buffer that no unstash of it accepts. */
  lemma FailedStashIsRejected(
    buf: seq<Byte>, base: nat, size: int, records: seq<Record>, idUser: nat, nextId: nat, idCount: nat)
    requires HEADER_SIZE <= size <= |buf| && ValidRecords(records) && |records| * RECORD_SIZE < WORD_LIMIT
    requires !StashSpec(buf, size, records, idUser).ok
    ensures !Accepts(StashSpec(buf, size, records, idUser).buf, base, size, nextId, idCount)
  {
    hide StashSpec, Written, Payload, HeaderBytes;
    StashEffect(buf, size, records, idUser);
    var written := Written(records, idUser, size);
    var h := StashHeader(records, 0);
    var rest := written + buf[HEADER_SIZE + |written|..];
    assert HeaderBytes(h) + written + buf[HEADER_SIZE + |written|..] == HeaderBytes(h) + rest;
    ReadHeader(h, rest);
    if Timed(records) == [] {
      NoRecordsNoPayload(records, idUser);
    }
  }

  // ---------------------------------------------------------------------------------
  // Reading a stash back

  lemma {:induction false} ConcatAt(cs: seq<seq<Byte>>, i: nat)
    requires i < |cs|
    ensures |Concat(cs[..i])| + |cs[i]| <= |Concat(cs)|
    ensures Concat(cs)[|Concat(cs[..i])|..|Concat(cs[..i])| + |cs[i]|] == cs[i]
    ensures Concat(cs[..i + 1]) == Concat(cs[..i]) + cs[i]
  {
    var n := |cs| - 1;
    if i < n {
      assert cs[..n][..i] == cs[..i];
      assert cs[..n][..i + 1] == cs[..i + 1];
      ConcatAt(cs[..n], i);
      var at := |Concat(cs[..i])|;
      assert Concat(cs)[at..at + |cs[i]|] == Concat(cs[..n])[at..at + |cs[i]|];
    } else {
      assert cs[..i + 1] == cs;
    }
  }

  lemma {:induction false} RecordChunksLength(ts: seq<Record>, i: nat, cs: seq<seq<Byte>>)
    requires i <= |ts| && RecordChunks(ts) <= cs
    ensures |Concat(cs[..i])| == i * RECORD_SIZE
    decreases i
  {
    hide RecordBytes;
    if i > 0 {
      RecordChunksLength(ts, i - 1, cs);
      ConcatAt(cs, i - 1);
      assert cs[i - 1] == RecordChunks(ts)[i - 1];
    }
  }

  /** A buffer that starts with a stash of `ts`. */
  ghost predicate HoldsStash(buf: seq<Byte>, ts: seq<Record>, idUser: nat)
  {
    && ValidRecords(ts)
    && |ts| < WORD_LIMIT
    && var payload := Concat(Chunks(ts, idUser));
       var total := HEADER_SIZE + |payload|;
       && total < WORD_LIMIT && total <= |buf|
       && buf[..total] == HeaderBytes(Header(BOOTSTAGE_VERSION, |ts|, total, BOOTSTAGE_MAGIC)) + payload
  }

  lemma HeldIsValid(buf: seq<Byte>, ts: seq<Record>, idUser: nat)
    requires HoldsStash(buf, ts, idUser)
    ensures ValidRecords(ts)
  {
  }

  lemma HeldHeader(buf: seq<Byte>, ts: seq<Record>, idUser: nat)
    requires HoldsStash(buf, ts, idUser)
    ensures HeaderIn(buf) ==
              Header(BOOTSTAGE_VERSION, |ts|, HEADER_SIZE + |Concat(Chunks(ts, idUser))|, BOOTSTAGE_MAGIC)
  {
    hide HeaderBytes, Chunks, Concat, HeaderIn;
    var payload := Concat(Chunks(ts, idUser));
    var total := HEADER_SIZE + |payload|;
    var h := Header(BOOTSTAGE_VERSION, |ts|, total, BOOTSTAGE_MAGIC);
    assert buf == HeaderBytes(h) + (payload + buf[total..]) by {
      assert buf == buf[..total] + buf[total..];
    }
    ReadHeader(h, payload + buf[total..]);
  }

  lemma HeldChunk(buf: seq<Byte>, ts: seq<Record>, idUser: nat, i: nat)
    requires HoldsStash(buf, ts, idUser)
    requires i < |Chunks(ts, idUser)|
    ensures var cs := Chunks(ts, idUser);
            var at := HEADER_SIZE + |Concat(cs[..i])|;
            && at + |cs[i]| <= HEADER_SIZE + |Concat(cs)|
            && buf[at..at + |cs[i]|] == cs[i]
  {
    hide HeaderBytes, Chunks, Concat;
    var cs := Chunks(ts, idUser);
    ConcatAt(cs, i);
    var at, n := |Concat(cs[..i])|, |cs[i]|;
    var total := HEADER_SIZE + |Concat(cs)|;
    assert buf[..total][HEADER_SIZE..] == Concat(cs);
    assert buf[HEADER_SIZE + at..HEADER_SIZE + at + n] == buf[..total][HEADER_SIZE..][at..at + n];
  }

  lemma HeldRecord(buf: seq<Byte>, ts: seq<Record>, idUser: nat, i: nat, name: Name)
    requires HoldsStash(buf, ts, idUser) && i < |ts|
    ensures HEADER_SIZE + |ts| * RECORD_SIZE <= |buf|
    ensures FieldsAt(buf, |ts|, i, name) == ts[i].(name := name)
  {
    hide HeaderBytes, GetU32, Concat, NameBytes, RecordBytes, HoldsStash;
    HeldIsValid(buf, ts, idUser);
    var cs := Chunks(ts, idUser);
    RecordChunksLength(ts, i, cs);
    HeldChunk(buf, ts, idUser, i);
    HeldLength(buf, ts, idUser);
    assert cs[i] == RecordChunks(ts)[i];
    ReadRecordBytes(buf, HEADER_SIZE + i * RECORD_SIZE, ts[i]);
  }

  lemma HeldLength(buf: seq<Byte>, ts: seq<Record>, idUser: nat)
    requires HoldsStash(buf, ts, idUser)
    ensures HEADER_SIZE + |ts| * RECORD_SIZE <= HEADER_SIZE + |Concat(Chunks(ts, idUser))| <= |buf|
    ensures HEADER_SIZE + |Concat(Chunks(ts, idUser))| < WORD_LIMIT
  {
    var cs := Chunks(ts, idUser);
    RecordChunksLength(ts, |ts|, cs);
    ConcatSplit(cs[..|ts|], cs[|ts|..]);
    assert cs[..|ts|] + cs[|ts|..] == cs;
  }

  lemma ReadRecordBytes(buf: seq<Byte>, at: nat, r: Record)
    requires ValidRecord(r) && at + RECORD_SIZE <= |buf| && buf[at..at + RECORD_SIZE] == RecordBytes(r)
    ensures GetU32(buf, at) == r.time && GetU32(buf, at + 4) == r.start
    ensures GetU32(buf, at + 12) == r.flags && GetU32(buf, at + 16) == r.id
  {
    hide PutU32, GetU32;
    var bytes := buf[at..at + RECORD_SIZE];
    assert buf[at..at + 4] == bytes[0..4] == PutU32(r.time);
    assert buf[at + 4..at + 8] == bytes[4..8] == PutU32(r.start);
    assert buf[at + 12..at + 16] == bytes[12..16] == PutU32(r.flags);
    assert buf[at + 16..at + 20] == bytes[16..20] == PutU32(r.id);
    GetU32At(buf, at, r.time);
    GetU32At(buf, at + 4, r.start);
    GetU32At(buf, at + 12, r.flags);
    GetU32At(buf, at + 16, r.id);
  }

  lemma NameChunk(ts: seq<Record>, idUser: nat, i: nat)
    requires ValidRecords(ts) && i < |ts|
    ensures |ts| + i < |Chunks(ts, idUser)| && Chunks(ts, idUser)[|ts| + i] == RecordName(ts[i], idUser) + [0]
  {
    hide RecordName, RecordBytes;
  }

  lemma SplitString(buf: seq<Byte>, at: nat, text: seq<Byte>)
    requires at + |text| + 1 <= |buf| && buf[at..at + |text| + 1] == text + [0]
    ensures buf[at..at + |text|] == text && buf[at + |text|] == 0
  {
    var chunk, cut := buf[at..at + |text| + 1], buf[at..at + |text|];
    forall k | 0 <= k < |text|
      ensures cut[k] == text[k]
    {
      assert cut[k] == buf[at + k] == chunk[k];
    }
    assert buf[at + |text|] == chunk[|text|];
  }

  lemma HeldName(buf: seq<Byte>, ts: seq<Record>, idUser: nat, i: nat)
    requires HoldsStash(buf, ts, idUser) && i < |ts|
    ensures var cs := Chunks(ts, idUser);
            var at := HEADER_SIZE + |Concat(cs[..|ts| + i])|;
            var name := RecordName(ts[i], idUser);
            && at + |name| < |buf| && buf[at..at + |name|] == name
            && StringLength(buf, at) == |name|
            && at + |name| + 1 == HEADER_SIZE + |Concat(cs[..|ts| + i + 1])|
  {
    hide HoldsStash, RecordName, Chunks, Concat, StringLength;
    HeldIsValid(buf, ts, idUser);
    NameChunk(ts, idUser, i);
    var cs := Chunks(ts, idUser);
    HeldChunk(buf, ts, idUser, |ts| + i);
    ConcatAt(cs, |ts| + i);
    HeldLength(buf, ts, idUser);
    var at := HEADER_SIZE + |Concat(cs[..|ts| + i])|;
    var name := RecordName(ts[i], idUser);
    SplitString(buf, at, name);
    StringLengthOf(buf, at, name);
  }

  lemma {:induction false} HeldNameStart(buf: seq<Byte>, ts: seq<Record>, idUser: nat, i: nat)
    requires HoldsStash(buf, ts, idUser) && i <= |ts|
    ensures NameStart(buf, |ts|, i) == HEADER_SIZE + |Concat(Chunks(ts, idUser)[..|ts| + i])|
    decreases i
  {
    hide HoldsStash, Concat, RecordName, StringLength;
    HeldIsValid(buf, ts, idUser);
    var cs := Chunks(ts, idUser);
    if i == 0 {
      HeldLength(buf, ts, idUser);
      RecordChunksLength(ts, |ts|, cs);
    } else {
      HeldNameStart(buf, ts, idUser, i - 1);
      HeldName(buf, ts, idUser, i - 1);
    }
  }

  /** What a record is after a stash and an unstash: the same, with the name that it is reported by. */
  function Restored(r: Record, idUser: nat, ptr: nat): Record
    requires ValidRecord(r)
  {
    r.(name := Str(ptr, RecordName(r, idUser)))
  }

  lemma HeldRecordRestored(buf: seq<Byte>, base: nat, ts: seq<Record>, idUser: nat, i: nat)
    requires HoldsStash(buf, ts, idUser) && i < |ts|
    ensures HEADER_SIZE + |ts| * RECORD_SIZE <= |buf|
    ensures UnstashedAt(buf, base, |ts|, i) == Restored(ts[i], idUser, base + NameStart(buf, |ts|, i))
  {
    hide HoldsStash, Concat, RecordName, StringLength, GetU32, Chunks;
    HeldIsValid(buf, ts, idUser);
    HeldNameStart(buf, ts, idUser, i);
    HeldName(buf, ts, idUser, i);
    HeldRecord(buf, ts, idUser, i, Str(base + NameStart(buf, |ts|, i), RecordName(ts[i], idUser)));
  }

  lemma StashHolds(buf: seq<Byte>, size: nat, records: seq<Record>, idUser: nat)
    requires size <= |buf| && size < WORD_LIMIT && ValidRecords(records) && |records| < WORD_LIMIT
    requires StashSpec(buf, size, records, idUser).ok
    ensures ValidRecords(Timed(records))
    ensures HoldsStash(StashSpec(buf, size, records, idUser).buf, Timed(records), idUser)
    ensures HEADER_SIZE + |Concat(Chunks(Timed(records), idUser))| <= size
  {
    hide StashSpec, HeaderBytes, Chunks, Concat, Timed;
    TimedValid(records);
    StashEffect(buf, size, records, idUser);
    TimedLength(records);
  }

  lemma TimedLength(records: seq<Record>)
    ensures |Timed(records)| <= |records|
  {
  }

  /** Where the end of a buffer in memory is, and when it is taken for the start of memory. */
  lemma StashInMemory(h: Header, base: nat, size: nat, nextId: nat, idCount: nat)
    requires HEADER_SIZE <= size && base + size <= WORD_LIMIT
    requires h.version == BOOTSTAGE_VERSION && h.magic == BOOTSTAGE_MAGIC
    requires HEADER_SIZE + h.count * RECORD_SIZE <= h.size <= size
    requires nextId + h.count <= idCount && idCount * RECORD_SIZE < WORD_LIMIT
    ensures AcceptsHeader(h, base, size, nextId, idCount) <==> base + size < WORD_LIMIT || size == HEADER_SIZE
  {
    assert base + size == WORD_LIMIT ==> Wrap(base + size) == 0;
    assert base + HEADER_SIZE == WORD_LIMIT ==> Wrap(base + HEADER_SIZE) == 0;
  }

  /**
   Stash and unstash: if a stash succeeded and the new table has room, unstashing appends exactly
   the records with a time, in order, each with its id, flags and times and the name that it is
   reported by, and leaves every other slot as it was.  The one exception is a buffer that ends at
   the top of memory, where the address of its end is zero.
   */
  lemma UnstashRestores(buf: seq<Byte>, base: nat, size: nat, records: seq<Record>, idUser: nat, t: Table)
    requires size <= |buf| && size < WORD_LIMIT && base + size <= WORD_LIMIT
    requires ValidRecords(records) && |records| < WORD_LIMIT && |t.records| * RECORD_SIZE < WORD_LIMIT
    requires StashSpec(buf, size, records, idUser).ok
    requires t.nextId + |Timed(records)| <= |t.records|
    ensures var stash := StashSpec(buf, size, records, idUser).buf;
            && Readable(stash, base, size, t.nextId, |t.records|)
            && Harmless(stash, base, size, t.nextId, |t.records|)
            && (Accepts(stash, base, size, t.nextId, |t.records|) <==> base + size < WORD_LIMIT || size == HEADER_SIZE)
            && ValidRecords(Timed(records))
            && var t' := UnstashSpec(t, stash, base, size);
               && |t'.records| == |t.records|
               && (forall k :: 0 <= k < |t.records| && !(t.nextId <= k < t'.nextId) ==> t'.records[k] == t.records[k])
               && (Accepts(stash, base, size, t.nextId, |t.records|) ==>
                     && t'.nextId == t.nextId + |Timed(records)|
                     && forall i :: 0 <= i < |Timed(records)| ==>
                          t'.records[t.nextId + i]
                          == Restored(Timed(records)[i], idUser, base + NameStart(stash, |Timed(records)|, i)))
  {
    hide StashSpec, Timed, HoldsStash, Chunks, Concat, NameStart, UnstashedAt, HeaderIn, Restored, AcceptsHeader;
    var stash := StashSpec(buf, size, records, idUser).buf;
    var ts := Timed(records);
    StashHolds(buf, size, records, idUser);
    HeldHeader(stash, ts, idUser);
    HeldLength(stash, ts, idUser);
    StashInMemory(HeaderIn(stash), base, size, t.nextId, |t.records|);
    forall i | 0 <= i < |ts|
      ensures UnstashedAt(stash, base, |ts|, i) == Restored(ts[i], idUser, base + NameStart(stash, |ts|, i))
    {
      HeldRecordRestored(stash, base, ts, idUser, i);
    }
  }

  // ---------------------------------------------------------------------------------
  // The checks of stash in 32 bits

  /**
   Stash compares addresses in 32 bits.  For a buffer that ends below the top of memory, all its
   comparisons are those of the sizes exactly when all that it would append to the buffer's start
   stays below the top of memory too.
   */
  lemma PointerChecksAreExactIff(base: nat, size: nat, records: seq<Record>, idUser: nat)
    requires HEADER_SIZE <= size && base + size < WORD_LIMIT
    requires ValidRecords(records) && |Payload(records, idUser)| < WORD_LIMIT
    ensures (forall k :: 0 <= k <= |Appended(records, idUser)| ==> PointerCheckIsExact(base, size, records, idUser, k))
       <==> base + HEADER_SIZE + |Payload(records, idUser)| < WORD_LIMIT
  {
    hide Chunks, Timed, Concat, Wrap;
    var cs := Appended(records, idUser);
    assert cs[..|cs|] == cs;
    if base + HEADER_SIZE + |Payload(records, idUser)| >= WORD_LIMIT {
      WrapOnce(base + HEADER_SIZE + |Concat(cs)|);
      assert !PointerCheckIsExact(base, size, records, idUser, |cs|);
    } else {
      forall k | 0 <= k <= |cs|
        ensures PointerCheckIsExact(base, size, records, idUser, k)
      {
        ConcatPrefix(cs, k);
      }
    }
  }

  /** The chunks that a stash appends behind its header. */
  function Appended(records: seq<Record>, idUser: nat): seq<seq<Byte>>
    requires ValidRecords(records)
  {
    TimedValid(records);
    Chunks(Timed(records), idUser)
  }

  /** After `k` chunks, the address is beyond the end exactly if the size is. */
  predicate PointerCheckIsExact(base: nat, size: nat, records: seq<Record>, idUser: nat, k: nat)
    requires ValidRecords(records) && k <= |Appended(records, idUser)|
  {
    var at := HEADER_SIZE + |Concat(Appended(records, idUser)[..k])|;
    Wrap(base + at) > EndAddress(base, size) <==> at > size
  }

  lemma WrapOnce(x: int)
    requires WORD_LIMIT <= x < 2 * WORD_LIMIT
    ensures Wrap(x) == x - WORD_LIMIT
  {
  }

  lemma ConcatPrefix(cs: seq<seq<Byte>>, k: nat)
    requires k <= |cs|
    ensures |Concat(cs[..k])| <= |Concat(cs)|
  {
    ConcatSplit(cs[..k], cs[k..]);
    assert cs[..k] + cs[k..] == cs;
  }

  // ---------------------------------------------------------------------------------
  // How far unstash reads

  /** The number of NUL bytes from `at` up to `size`. */
  function Nuls(buf: seq<Byte>, at: nat, size: nat): nat
    requires size <= |buf|
    decreases |buf| - at
  {
    if at >= size then 0 else (if buf[at] == 0 then 1 else 0) + Nuls(buf, at + 1, size)
  }

  /** A string ends inside exactly if there is a NUL left, and uses up the first one. */
  lemma {:induction false} StringEndsInside(buf: seq<Byte>, at: nat, size: nat)
    requires at <= size <= |buf|
    ensures var end := at + StringLength(buf, at);
            if Nuls(buf, at, size) == 0 then end >= size
            else end < size && Nuls(buf, end + 1, size) == Nuls(buf, at, size) - 1
    decreases size - at
  {
    if at < size && buf[at] != 0 {
      StringEndsInside(buf, at + 1, size);
    }
  }

  lemma {:induction false} NamesEndInside(buf: seq<Byte>, size: nat, count: nat, i: nat)
    requires size <= |buf|
    ensures var start := HEADER_SIZE + Wrap(count * RECORD_SIZE);
            if start <= size && i <= Nuls(buf, start, size)
            then
              && NameStart(buf, count, i) <= size
              && Nuls(buf, NameStart(buf, count, i), size) == Nuls(buf, start, size) - i
            else NameStart(buf, count, i) > size
    decreases i
  {
    hide Nuls, StringLength, Wrap;
    if i > 0 {
      NamesEndInside(buf, size, count, i - 1);
      var at := NameStart(buf, count, i - 1);
      if at <= size {
        StringEndsInside(buf, at, size);
      }
    }
  }

  /** The end of what unstash reads of an accepted stash: records, and the names behind them. */
  function ReadEnd(buf: seq<Byte>): nat
    requires |buf| >= HEADER_SIZE
  {
    NameStart(buf, HeaderIn(buf).count, HeaderIn(buf).count)
  }

  /**
   An accepted stash is read only inside the given size exactly when the records fit behind the
   header and as many NUL bytes as there are records follow them.  The code checks the records
   against the size without the header, and does not look for the ends of the names.
   */
  lemma ReadsInsideIff(buf: seq<Byte>, base: nat, size: nat, nextId: nat, idCount: nat)
    requires HEADER_SIZE <= size <= |buf| && Accepts(buf, base, size, nextId, idCount)
    ensures var count := HeaderIn(buf).count;
            var start := HEADER_SIZE + Wrap(count * RECORD_SIZE);
            ReadEnd(buf) <= size <==> start <= size && count <= Nuls(buf, start, size)
  {
    hide Nuls, NameStart, HeaderIn, Wrap;
    NamesEndInside(buf, size, HeaderIn(buf).count, HeaderIn(buf).count);
  }

  /** A stash of size 20 with one record, in 40 bytes of memory. */
  function ShortStash(): seq<Byte>
  {
    HeaderBytes(Header(BOOTSTAGE_VERSION, 1, 20, BOOTSTAGE_MAGIC)) + seq(24, _ => 0)
  }

  /** It is accepted for 20 bytes, but read beyond them. */
  lemma ShortStashIsReadBeyond()
    ensures |ShortStash()| == 40 && Accepts(ShortStash(), 0, 20, 0, 1) && Readable(ShortStash(), 0, 20, 0, 1)
    ensures ReadEnd(ShortStash()) > 20
  {
    hide HeaderBytes, HeaderIn, NameStart, Nuls;
    ReadHeader(Header(BOOTSTAGE_VERSION, 1, 20, BOOTSTAGE_MAGIC), seq(24, _ => 0));
    ReadsInsideIff(ShortStash(), 0, 20, 0, 1);
  }

  // ---------------------------------------------------------------------------------
  // A stash that announces more records than there is room for

  /** The offset of the name in a record. */
  const NAME_OFFSET := 8

  /** The address of the `i`-th name that unstash stores, for a table at address `record`. */
  function NameAddress(record: nat, nextId: nat, i: nat): nat
  {
    Wrap(record + (nextId + i) * RECORD_SIZE + NAME_OFFSET)
  }

  lemma WrapBack(a: nat, m: int)
    requires a < WORD_LIMIT
    ensures Wrap(a - WORD_LIMIT * m) == a
  {
  }

  /**
   Steps of 20 bytes reach every word: 2^30 stores of names hit every address that is a whole number
   of words away from the table.
   */
  lemma EveryWordIsWritten(record: nat, nextId: nat, count: nat, a: nat) returns (i: nat)
    requires count >= 0x4000_0000 && a < WORD_LIMIT && (a - record) % 4 == 0
    ensures i < count && NameAddress(record, nextId, i) == a
  {
    hide Wrap;
    var d := a - record - NAME_OFFSET - nextId * RECORD_SIZE;
    var e := d / 4;
    assert d == 4 * e by {
      var q := (a - record) / 4;
      assert d == 4 * (q - 2 - 5 * nextId);
    }
    // 5 * -858993459 is 1 modulo 2^30.
    var j := -858993459 * e / 0x4000_0000;
    i := -858993459 * e % 0x4000_0000;
    assert i == -858993459 * e - 0x4000_0000 * j;
    WrapBack(a, 4 * e + 5 * j);
  }

  /**
   The checks are made in 32 bits: this header is accepted for any buffer and table, although it
   announces 2^32 - 1 records, and the next id goes back by one.
   */
  lemma WrappingStashIsAccepted(base: nat, size: nat, nextId: nat, idCount: nat)
    requires 20 <= base && HEADER_SIZE <= size && base + size < WORD_LIMIT
    requires 1 <= nextId <= idCount && idCount * RECORD_SIZE < WORD_LIMIT
    ensures var h := Header(BOOTSTAGE_VERSION, 0xffff_ffff, 0xffff_ffec, BOOTSTAGE_MAGIC);
            var buf := HeaderBytes(h);
            && Accepts(buf, base, size, nextId, idCount)
            && !HasRoom(buf, nextId, idCount)
            && Wrap(nextId + h.count) == nextId - 1
  {
    hide HeaderBytes, HeaderIn, Wrap;
    var h := Header(BOOTSTAGE_VERSION, 0xffff_ffff, 0xffff_ffec, BOOTSTAGE_MAGIC);
    ReadHeader(h, []);
    assert HeaderBytes(h) + [] == HeaderBytes(h);
    WrapOnce(base + h.size);
    WrapOnce(nextId + h.count);
    WrapBack(0xffff_ffec, -19);
  }

  /** Accepted without room: then the count is so large that the sum with the next id wraps. */
  lemma NoRoomWraps(h: Header, base: nat, size: int, nextId: nat, idCount: nat)
    requires AcceptsHeader(h, base, size, nextId, idCount) && nextId < 0x8000_0000
    requires nextId + h.count > idCount
    ensures h.count >= 0x8000_0000
  {
  }
}
