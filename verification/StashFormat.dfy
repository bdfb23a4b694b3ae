/**
 The byte format in which boot stage records are stashed: a header, the records that have a
 time, and the names of those records as NUL-terminated strings.
 */
module StashFormat {
  import opened Basics
  import opened Text

  const HEADER_SIZE := 16
  const RECORD_SIZE := 20
  const BOOTSTAGE_VERSION := 0
  const BOOTSTAGE_MAGIC := 0xb007_57a3

  /** A name pointer and the string that it points to. */
  datatype Name = Null | Str(ptr: nat, text: seq<Byte>)

  datatype Record = Record(time: nat, start: nat, name: Name, flags: nat, id: nat)

  datatype Header = Header(version: nat, count: nat, size: nat, magic: nat)

  /** A C string has no NUL in it. */
  predicate IsCString(s: seq<Byte>)
  {
    forall i :: 0 <= i < |s| ==> s[i] != 0
  }

  predicate ValidRecord(r: Record)
  {
    && r.time < WORD_LIMIT && r.start < WORD_LIMIT && r.flags < WORD_LIMIT && r.id < WORD_LIMIT
    && (r.name.Str? ==> r.name.ptr < WORD_LIMIT && IsCString(r.name.text))
  }

  // ---------------------------------------------------------------------------------
  // Words

  function PutU32(x: nat): (bs: seq<Byte>)
    ensures |bs| == 4
  {
    [(x % 256) as Byte, (x / 256 % 256) as Byte, (x / 65536 % 256) as Byte, (x / 16777216 % 256) as Byte]
  }

  function GetU32(bs: seq<Byte>, at: nat): (x: nat)
    requires at + 4 <= |bs|
    ensures x < WORD_LIMIT
  {
    bs[at] as int + 256 * bs[at + 1] as int + 65536 * bs[at + 2] as int + 16777216 * bs[at + 3] as int
  }

  lemma GetPutU32(x: nat)
    requires x < WORD_LIMIT
    ensures GetU32(PutU32(x), 0) == x
  {
    var b1, b2, b3 := x / 256, x / 65536, x / 16777216;
    assert x == 256 * b1 + x % 256;
    assert b1 == 256 * b2 + b1 % 256;
    assert b2 == 256 * b3 + b2 % 256;
    assert b3 % 256 == b3;
  }

  lemma GetU32At(bs: seq<Byte>, at: nat, x: nat)
    requires at + 4 <= |bs| && x < WORD_LIMIT && bs[at..at + 4] == PutU32(x)
    ensures GetU32(bs, at) == x
  {
    GetPutU32(x);
    assert bs[at] == bs[at..at + 4][0] && bs[at + 1] == bs[at..at + 4][1];
    assert bs[at + 2] == bs[at..at + 4][2] && bs[at + 3] == bs[at..at + 4][3];
  }

  // ---------------------------------------------------------------------------------
  // Names

  function Ascii(s: string): (bs: seq<Byte>)
    requires forall i :: 0 <= i < |s| ==> 0 < s[i] as int < 256
    ensures |bs| == |s| && IsCString(bs)
  {
    if s == "" then [] else [(s[0] as int) as Byte] + Ascii(s[1..])
  }

  function DecimalBytes(n: nat): (bs: seq<Byte>)
    ensures IsCString(bs)
  {
    var s := Digits(n, 10);
    assert forall i :: 0 <= i < |s| ==> IsXdigit(s[i]);
    Ascii(s)
  }

  /** `get_record_name`: the name given, or one made up from the id. */
  function RecordName(r: Record, idUser: nat): (name: seq<Byte>)
    requires ValidRecord(r)
    ensures IsCString(name)
  {
    if r.name.Str? then r.name.text
    else if r.id >= idUser then Ascii("user_") + DecimalBytes(r.id - idUser)
    else Ascii("id=") + DecimalBytes(r.id)
  }

  /** The string that starts at an offset: up to the first NUL, or the end of memory. */
  function StringLength(bs: seq<Byte>, at: nat): (n: nat)
    ensures at <= |bs| ==> at + n <= |bs|
    decreases |bs| - at
  {
    if at >= |bs| || bs[at] == 0 then 0 else 1 + StringLength(bs, at + 1)
  }

  lemma {:induction false} StringLengthOf(bs: seq<Byte>, at: nat, text: seq<Byte>)
    requires IsCString(text) && at + |text| < |bs|
    requires bs[at..at + |text|] == text && bs[at + |text|] == 0
    ensures StringLength(bs, at) == |text|
    decreases |text|
  {
    if text != [] {
      assert bs[at] == bs[at..at + |text|][0];
      assert bs[at + 1..at + |text|] == bs[at..at + |text|][1..];
      StringLengthOf(bs, at + 1, text[1..]);
    }
  }

  // ---------------------------------------------------------------------------------
  // Chunks

  function PointerOf(name: Name): nat
  {
    if name.Str? then name.ptr else 0
  }

  function RecordBytes(r: Record): (bs: seq<Byte>)
    ensures |bs| == RECORD_SIZE
  {
    PutU32(r.time) + PutU32(r.start) + PutU32(PointerOf(r.name)) + PutU32(r.flags) + PutU32(r.id)
  }

  function HeaderBytes(h: Header): (bs: seq<Byte>)
    ensures |bs| == HEADER_SIZE
  {
    PutU32(h.version) + PutU32(h.count) + PutU32(h.size) + PutU32(h.magic)
  }

  function NameBytes(r: Record, idUser: nat): (bs: seq<Byte>)
    requires ValidRecord(r)
    ensures |bs| == |RecordName(r, idUser)| + 1
  {
    RecordName(r, idUser) + [0]
  }

  predicate ValidRecords(rs: seq<Record>)
  {
    forall i :: 0 <= i < |rs| ==> ValidRecord(rs[i])
  }

  /** The records that have a time, in order. */
  function Timed(rs: seq<Record>): (ts: seq<Record>)
    ensures |ts| <= |rs|
    ensures forall i :: 0 <= i < |ts| ==> ts[i] in rs && ts[i].time != 0
  {
    if rs == [] then []
    else
      var last := rs[|rs| - 1];
      var rest := Timed(rs[..|rs| - 1]);
      if last.time != 0 then rest + [last] else rest
  }

  function RecordChunks(ts: seq<Record>): (cs: seq<seq<Byte>>)
    ensures |cs| == |ts|
    ensures forall i :: 0 <= i < |ts| ==> cs[i] == RecordBytes(ts[i])
  {
    seq(|ts|, i requires 0 <= i < |ts| => RecordBytes(ts[i]))
  }

  function NameChunks(ts: seq<Record>, idUser: nat): (cs: seq<seq<Byte>>)
    requires ValidRecords(ts)
    ensures |cs| == |ts|
    ensures forall i :: 0 <= i < |ts| ==> cs[i] == NameBytes(ts[i], idUser)
  {
    seq(|ts|, i requires 0 <= i < |ts| => NameBytes(ts[i], idUser))
  }

  function Chunks(ts: seq<Record>, idUser: nat): seq<seq<Byte>>
    requires ValidRecords(ts)
  {
    RecordChunks(ts) + NameChunks(ts, idUser)
  }

  function Concat(cs: seq<seq<Byte>>): seq<Byte>
  {
    if cs == [] then [] else Concat(cs[..|cs| - 1]) + cs[|cs| - 1]
  }

  lemma {:induction false} ConcatSplit(a: seq<seq<Byte>>, b: seq<seq<Byte>>)
    ensures Concat(a + b) == Concat(a) + Concat(b)
    decreases |b|
  {
    if b == [] {
      assert a + b == a;
    } else {
      var n := |b| - 1;
      assert (a + b)[..|a + b| - 1] == a + b[..n];
      ConcatSplit(a, b[..n]);
    }
  }

  // ---------------------------------------------------------------------------------
  // Writing into a bounded buffer

  function WriteAt(buf: seq<Byte>, at: nat, data: seq<Byte>): (r: seq<Byte>)
    requires at + |data| <= |buf|
    ensures |r| == |buf|
  {
    buf[..at] + data + buf[at + |data|..]
  }

  datatype Cursor = Cursor(buf: seq<Byte>, ptr: nat)

  /** `append_data`: writes if there is room; the pointer moves on either way. */
  function Append(c: Cursor, end: nat, data: seq<Byte>): (c': Cursor)
    requires end <= |c.buf|
    ensures |c'.buf| == |c.buf| && c'.ptr == c.ptr + |data|
  {
    var ptr := c.ptr + |data|;
    Cursor(if ptr > end then c.buf else WriteAt(c.buf, c.ptr, data), ptr)
  }

  function AppendAll(c: Cursor, end: nat, cs: seq<seq<Byte>>): (c': Cursor)
    requires end <= |c.buf|
    ensures |c'.buf| == |c.buf|
  {
    if cs == [] then c
    else Append(AppendAll(c, end, cs[..|cs| - 1]), end, cs[|cs| - 1])
  }

  /** How many chunks fit, taken in order, into `room` bytes. */
  function Fitting(cs: seq<seq<Byte>>, room: nat): (k: nat)
    ensures k <= |cs|
    ensures |Concat(cs[..k])| <= room
  {
    if cs == [] then 0
    else if |Concat(cs)| <= room then
      assert cs[..|cs|] == cs;
      |cs|
    else
      var rest := cs[..|cs| - 1];
      assert forall k :: 0 <= k <= |rest| ==> cs[..k] == rest[..k];
      Fitting(rest, room)
  }

  lemma {:induction false} FittingIsLongest(cs: seq<seq<Byte>>, room: nat, k: nat)
    requires k <= |cs| && |Concat(cs[..k])| <= room
    ensures k <= Fitting(cs, room)
    decreases |cs|
  {
    if k < |cs| && |Concat(cs)| > room {
      var rest := cs[..|cs| - 1];
      assert cs[..k] == rest[..k];
      FittingIsLongest(rest, room, k);
    } else {
      assert cs[..|cs|] == cs;
    }
  }

  lemma WriteAtTwice(buf: seq<Byte>, at: nat, a: seq<Byte>, b: seq<Byte>)
    requires at + |a| + |b| <= |buf|
    ensures WriteAt(WriteAt(buf, at, a), at + |a|, b) == WriteAt(buf, at, a + b)
  {
  }

  lemma {:induction false} AppendAllMoves(c: Cursor, end: nat, cs: seq<seq<Byte>>)
    requires end <= |c.buf|
    ensures AppendAll(c, end, cs).ptr == c.ptr + |Concat(cs)|
  {
    if cs != [] {
      AppendAllMoves(c, end, cs[..|cs| - 1]);
    }
  }

  /** Appending writes exactly the longest prefix of the chunks that fits, and nothing else. */
  lemma {:induction false} AppendAllWrites(c: Cursor, end: nat, cs: seq<seq<Byte>>)
    requires c.ptr <= end <= |c.buf|
    ensures AppendAll(c, end, cs).buf == WriteAt(c.buf, c.ptr, Concat(cs[..Fitting(cs, end - c.ptr)]))
    decreases |cs|
  {
    hide WriteAt;
    if cs == [] {
      WriteNothing(c.buf, c.ptr);
      assert cs[..0] == [];
    } else {
      AppendAllWrites(c, end, cs[..|cs| - 1]);
      AppendLast(c, end, cs);
    }
  }

  lemma WriteNothing(buf: seq<Byte>, at: nat)
    requires at <= |buf|
    ensures WriteAt(buf, at, []) == buf
  {
  }

  lemma FittingAll(cs: seq<seq<Byte>>, room: nat)
    requires |Concat(cs)| <= room
    ensures Fitting(cs, room) == |cs| && cs[..Fitting(cs, room)] == cs
  {
    hide Concat;
  }

  lemma FittingLess(cs: seq<seq<Byte>>, room: nat)
    requires cs != [] && |Concat(cs)| > room
    ensures var rest := cs[..|cs| - 1];
            Fitting(cs, room) == Fitting(rest, room) && cs[..Fitting(cs, room)] == rest[..Fitting(rest, room)]
  {
    hide Concat;
    var rest := cs[..|cs| - 1];
    assert cs[..Fitting(rest, room)] == rest[..Fitting(rest, room)];
  }

  lemma ConcatLast(cs: seq<seq<Byte>>)
    requires cs != []
    ensures Concat(cs) == Concat(cs[..|cs| - 1]) + cs[|cs| - 1]
  {
  }

  lemma AppendLast(c: Cursor, end: nat, cs: seq<seq<Byte>>)
    requires c.ptr <= end <= |c.buf| && cs != []
    requires var rest := cs[..|cs| - 1];
             AppendAll(c, end, rest).buf == WriteAt(c.buf, c.ptr, Concat(rest[..Fitting(rest, end - c.ptr)]))
    ensures AppendAll(c, end, cs).buf == WriteAt(c.buf, c.ptr, Concat(cs[..Fitting(cs, end - c.ptr)]))
  {
    hide WriteAt, AppendAll, Concat, Fitting;
    var n, room := |cs| - 1, end - c.ptr;
    var rest, last := cs[..n], cs[n];
    AppendAllStep(c, end, cs);
    AppendAllMoves(c, end, rest);
    ConcatLast(cs);
    if |Concat(cs)| <= room {
      FittingAll(cs, room);
      FittingAll(rest, room);
      WriteAtTwice(c.buf, c.ptr, Concat(rest), last);
    } else {
      FittingLess(cs, room);
    }
  }

  lemma AppendAllStep(c: Cursor, end: nat, cs: seq<seq<Byte>>)
    requires end <= |c.buf| && cs != []
    ensures AppendAll(c, end, cs) == Append(AppendAll(c, end, cs[..|cs| - 1]), end, cs[|cs| - 1])
  {
  }
}
