/**
 The boot stage table over every sequence of marks and unstashes: the first event recorded in
 a slot stays there for good, allocated ids are never reused, and the overflow that the report
 prints is the number of events that were lost.
 */
module BootRecords {
  import opened Basics
  import opened StashFormat
  import opened Bootstage
  import opened Stashing

  datatype Op =
    | Mark(id: nat, name: Name, flags: nat, time: nat)
    | Unstash(buf: seq<Byte>, base: nat, size: int)

  /**
   Marks carry a time, and ids given by the caller stay below the user range.  A stash that would be
   accepted must have no more records than there is room for; `UnstashKeepsEventsIff` is about those
   that have more.
   */
  predicate LegalOp(t: Table, op: Op, idUser: nat)
  {
    match op
    case Mark(id, _, flags, time) => time != 0 && (HasAlloc(flags) || id < idUser)
    case Unstash(buf, base, size) =>
      Readable(buf, base, size, t.nextId, |t.records|) && Harmless(buf, base, size, t.nextId, |t.records|)
  }

  function Apply(t: Table, op: Op, idUser: nat): (t': Table)
    requires LegalOp(t, op, idUser)
    ensures |t'.records| == |t.records|
  {
    match op
    case Mark(id, name, flags, time) => AddSpec(t, id, name, flags, time)
    case Unstash(buf, base, size) => UnstashSpec(t, buf, base, size)
  }

  predicate LegalRun(t: Table, ops: seq<Op>, idUser: nat)
    decreases |ops|
  {
    ops == [] || (LegalOp(t, ops[0], idUser) && LegalRun(Apply(t, ops[0], idUser), ops[1..], idUser))
  }

  function Run(t: Table, ops: seq<Op>, idUser: nat): (t': Table)
    requires LegalRun(t, ops, idUser)
    ensures |t'.records| == |t.records|
    decreases |ops|
  {
    if ops == [] then t else Run(Apply(t, ops[0], idUser), ops[1..], idUser)
  }

  /** The slots from the next id on are free. */
  ghost predicate Inv(t: Table, idUser: nat)
  {
    && idUser <= t.nextId
    && forall k :: t.nextId <= k < |t.records| ==> t.records[k].time == 0
  }

  /** A new table satisfies the invariant. */
  lemma InitialInv(b: Bootstage)
    requires b.idUser == b.nextId >= 1
    requires forall i :: 0 <= i < b.record.Length ==> b.record[i] == Record(if i == 0 then 1 else 0, 0, Null, 0, 0)
    ensures Inv(b.AsTable(), b.idUser)
  {
  }

  /** No operation touches a recorded event, and the invariant is kept. */
  lemma ApplyKeeps(t: Table, op: Op, idUser: nat)
    requires Inv(t, idUser) && LegalOp(t, op, idUser)
    ensures Inv(Apply(t, op, idUser), idUser)
    ensures forall k :: 0 <= k < |t.records| && t.records[k].time != 0 ==>
              Apply(t, op, idUser).records[k] == t.records[k]
  {
    hide UnstashedAt, HasAlloc;
  }

  /** The address lies in slot `k` of a table at address `record`. */
  predicate InSlot(record: nat, k: nat, a: nat)
  {
    record + k * RECORD_SIZE <= a < record + (k + 1) * RECORD_SIZE
  }

  /** A name that unstash stores falls on a recorded event. */
  predicate HitsEvent(t: Table, record: nat, i: nat, k: nat)
  {
    k < |t.records| && t.records[k].time != 0 && InSlot(record, k, NameAddress(record, t.nextId, i))
  }

  lemma RoomHitsNothing(t: Table, record: nat, count: nat, i: nat, k: nat, idUser: nat)
    requires Inv(t, idUser) && record + |t.records| * RECORD_SIZE <= WORD_LIMIT
    requires t.nextId + count <= |t.records| && i < count
    ensures !HitsEvent(t, record, i, k)
  {
    hide Wrap;
  }

  /**
   For every stash that is accepted and every recorded event: unstash leaves the event alone if and
   only if there is room for as many records as the header announces.  The check for that is made in
   32 bits, and a count that makes it wrap has names stored all over memory.
   */
  lemma UnstashKeepsEventsIff(t: Table, buf: seq<Byte>, base: nat, size: int, record: nat, idUser: nat, k: nat)
    requires Inv(t, idUser) && k < |t.records| && t.records[k].time != 0 && t.nextId < 0x8000_0000
    requires record + |t.records| * RECORD_SIZE <= WORD_LIMIT
    requires |buf| >= HEADER_SIZE && Accepts(buf, base, size, t.nextId, |t.records|)
    ensures (forall i :: 0 <= i < HeaderIn(buf).count ==> !HitsEvent(t, record, i, k))
       <==> HasRoom(buf, t.nextId, |t.records|)
  {
    hide Inv, HeaderIn, AcceptsHeader, HitsEvent, NameAddress;
    var count := HeaderIn(buf).count;
    if HasRoom(buf, t.nextId, |t.records|) {
      forall i | 0 <= i < count
        ensures !HitsEvent(t, record, i, k)
      {
        RoomHitsNothing(t, record, count, i, k, idUser);
      }
    } else {
      NoRoomWraps(HeaderIn(buf), base, size, t.nextId, |t.records|);
      var i := EveryWordIsWritten(record, t.nextId, count, record + k * RECORD_SIZE + NAME_OFFSET);
      EventHit(t, record, i, k);
    }
  }

  lemma EventHit(t: Table, record: nat, i: nat, k: nat)
    requires k < |t.records| && t.records[k].time != 0
    requires NameAddress(record, t.nextId, i) == record + k * RECORD_SIZE + NAME_OFFSET
    ensures HitsEvent(t, record, i, k)
  {
    hide NameAddress;
  }

  /** An event, once recorded, is kept whatever is marked or unstashed afterwards. */
  lemma {:induction false} EventsAreKept(t: Table, ops: seq<Op>, idUser: nat, k: nat)
    requires Inv(t, idUser) && LegalRun(t, ops, idUser)
    requires k < |t.records| && t.records[k].time != 0
    ensures Run(t, ops, idUser).records[k] == t.records[k]
    decreases |ops|
  {
    hide Inv, Apply;
    if ops != [] {
      ApplyKeeps(t, ops[0], idUser);
      EventsAreKept(Apply(t, ops[0], idUser), ops[1..], idUser, k);
    }
  }

  lemma {:induction false} RunKeepsInv(t: Table, ops: seq<Op>, idUser: nat)
    requires Inv(t, idUser) && LegalRun(t, ops, idUser)
    ensures Inv(Run(t, ops, idUser), idUser)
    decreases |ops|
  {
    hide Inv, Apply;
    if ops != [] {
      ApplyKeeps(t, ops[0], idUser);
      RunKeepsInv(Apply(t, ops[0], idUser), ops[1..], idUser);
    }
  }

  function SlotOf(t: Table, op: Op): nat
    requires op.Mark?
  {
    if HasAlloc(op.flags) then t.nextId else op.id
  }

  /**
   The first mark of an id is on record for good; a mark with an allocated id always counts as the
   first, because its slot is free.
   */
  lemma FirstMarkIsOnRecord(t: Table, mark: Op, rest: seq<Op>, idUser: nat)
    requires Inv(t, idUser) && mark.Mark? && LegalRun(t, [mark] + rest, idUser)
    requires SlotOf(t, mark) < |t.records|
    requires HasAlloc(mark.flags) || t.records[mark.id].time == 0
    ensures var slot := SlotOf(t, mark);
            Run(t, [mark] + rest, idUser).records[slot] ==
            Record(mark.time, t.records[slot].start, mark.name, mark.flags, slot)
  {
    hide HasAlloc;
    var ops := [mark] + rest;
    assert ops[0] == mark && ops[1..] == rest;
    ApplyKeeps(t, mark, idUser);
    EventsAreKept(Apply(t, mark, idUser), rest, idUser, SlotOf(t, mark));
  }

  /** The ids that the allocating marks of a run get. */
  function AllocatedIds(t: Table, ops: seq<Op>, idUser: nat): seq<nat>
    requires LegalRun(t, ops, idUser)
    decreases |ops|
  {
    if ops == [] then []
    else
      (if ops[0].Mark? && HasAlloc(ops[0].flags) then [t.nextId] else [])
      + AllocatedIds(Apply(t, ops[0], idUser), ops[1..], idUser)
  }

  lemma NextIdGrows(t: Table, op: Op, idUser: nat)
    requires LegalOp(t, op, idUser)
    ensures t.nextId <= Apply(t, op, idUser).nextId
    ensures op.Mark? && HasAlloc(op.flags) ==> t.nextId < Apply(t, op, idUser).nextId
  {
    hide UnstashedAt, HasAlloc;
  }

  predicate IncreasingFrom(ids: seq<nat>, low: nat)
  {
    && (forall i :: 0 <= i < |ids| ==> low <= ids[i])
    && (forall i, j :: 0 <= i < j < |ids| ==> ids[i] < ids[j])
  }

  lemma IncreasingCons(ids: seq<nat>, id: nat, low: nat)
    requires IncreasingFrom(ids, low) && id < low
    ensures IncreasingFrom([id] + ids, id)
  {
  }

  /** No allocated id is given out twice, nor one that was in use before. */
  lemma {:induction false} AllocatedIdsAreFresh(t: Table, ops: seq<Op>, idUser: nat)
    requires LegalRun(t, ops, idUser)
    ensures IncreasingFrom(AllocatedIds(t, ops, idUser), t.nextId)
    decreases |ops|
  {
    hide Apply, HasAlloc;
    if ops != [] {
      var t' := Apply(t, ops[0], idUser);
      NextIdGrows(t, ops[0], idUser);
      AllocatedIdsAreFresh(t', ops[1..], idUser);
      var rest := AllocatedIds(t', ops[1..], idUser);
      if ops[0].Mark? && HasAlloc(ops[0].flags) {
        IncreasingCons(rest, t.nextId, t'.nextId);
      } else {
        assert AllocatedIds(t, ops, idUser) == rest;
      }
    }
  }

  /** The number of allocating marks that found the table full. */
  function Lost(t: Table, ops: seq<Op>, idUser: nat): nat
    requires LegalRun(t, ops, idUser)
    decreases |ops|
  {
    if ops == [] then 0
    else
      (if ops[0].Mark? && HasAlloc(ops[0].flags) && t.nextId >= |t.records| then 1 else 0)
      + Lost(Apply(t, ops[0], idUser), ops[1..], idUser)
  }

  function Overflow(t: Table): nat
  {
    if t.nextId > |t.records| then t.nextId - |t.records| else 0
  }

  lemma OverflowStep(t: Table, op: Op, idUser: nat)
    requires LegalOp(t, op, idUser)
    ensures Overflow(Apply(t, op, idUser)) ==
              Overflow(t) + if op.Mark? && HasAlloc(op.flags) && t.nextId >= |t.records| then 1 else 0
  {
    hide UnstashedAt, HasAlloc;
  }

  /** The overflow in the report is exactly the number of allocated marks that were not stored. */
  lemma {:induction false} OverflowCountsLost(t: Table, ops: seq<Op>, idUser: nat)
    requires LegalRun(t, ops, idUser)
    ensures Overflow(Run(t, ops, idUser)) == Overflow(t) + Lost(t, ops, idUser)
    decreases |ops|
  {
    hide Apply, HasAlloc;
    if ops != [] {
      OverflowStep(t, ops[0], idUser);
      OverflowCountsLost(Apply(t, ops[0], idUser), ops[1..], idUser);
    }
  }
}
