/**
 The operand and opcode tables of the PowerPC debugger and the binary search over
 masked opcodes, `find_opcode`.

 The search halves a table whose entries are compared under *their own* masks, so it
 is not ordinary binary search.  The results below say for which tables it agrees with
 a linear scan, and give a condition on the table alone that decides this.
 */
module Opcodes {
  import opened Basics
  import opened Words

  // How an operand is printed and parsed.
  const OH_SILENT: bv8 := 0x01
  const OH_ADDR: bv8 := 0x02
  const OH_REG: bv8 := 0x04
  const OH_SPR: bv8 := 0x08
  const OH_TBR: bv8 := 0x10
  const OH_OFFSET: bv8 := 0x20
  const OH_LITERAL: bv8 := 0x40

  // Hints on a whole opcode.
  const H_RELATIVE: bv8 := 0x1
  const H_RA0_IS_0: bv8 := 0x4

  // The bits that tell the opcodes of an instruction form.
  const D_MASK: Word := 0xfc00_0000
  const B_MASK: Word := 0xfc00_0003
  const SC_MASK: Word := 0xfc00_0002
  const X_MASK: Word := 0xfc00_07ff
  const M_MASK: Word := 0xfc00_0001

  datatype Operand = Operand(field: nat, bits: Word, shift: Word, hint: bv8)

  /**
   `fields` lists the operand identifiers that precede the terminating zero; `handler` says that
   `handle_bc` is to look for a simplified mnemonic.
   */
  datatype Opcode =
    Opcode(opcode: Word, mask: Word, fields: seq<nat>, name: string, hint: bv8, handler: bool := false)

  datatype Ordering = Below | Same | Above

  /** How a word compares with an entry under the entry's own mask. */
  function Compare(w: Word, op: Opcode): Ordering
  {
    if Less(Masked(w, op.mask), op.opcode) then Below
    else if Less(op.opcode, Masked(w, op.mask)) then Above
    else Same
  }

  predicate Matches(w: Word, op: Opcode)
  {
    Compare(w, op) == Same
  }

  lemma CompareIsValueCompare(w: Word, op: Opcode)
    ensures Compare(w, op) == Below <==> Value(Masked(w, op.mask)) < Value(op.opcode)
    ensures Compare(w, op) == Above <==> Value(Masked(w, op.mask)) > Value(op.opcode)
    ensures Matches(w, op) <==> Masked(w, op.mask) == op.opcode
  {
    hide Less, Value, Masked;
    LessIsValueLess(Masked(w, op.mask), op.opcode);
    LessIsValueLess(op.opcode, Masked(w, op.mask));
    if Matches(w, op) {
      ValueInjective(Masked(w, op.mask), op.opcode);
    }
  }

  /** The simple form: the first entry that matches. */
  function LinearFind(table: seq<Opcode>, w: Word): (r: Option<nat>)
    ensures r.Some? ==> r.value < |table| && Matches(w, table[r.value])
    ensures r.Some? ==> forall i :: 0 <= i < r.value ==> !Matches(w, table[i])
    ensures r.None? ==> forall i :: 0 <= i < |table| ==> !Matches(w, table[i])
  {
    if table == [] then None
    else if Matches(w, table[0]) then Some(0)
    else
      match LinearFind(table[1..], w)
      case None =>
        assert forall i :: 1 <= i < |table| ==> table[i] == table[1..][i - 1];
        None
      case Some(k) =>
        assert forall i :: 1 <= i < |table| ==> table[i] == table[1..][i - 1];
        Some(k + 1)
  }

  /** The probes that the search makes on `table[top..bottom]`. */
  function Probe(table: seq<Opcode>, w: Word, top: nat, bottom: nat): (r: Option<nat>)
    requires top <= bottom <= |table|
    ensures r.Some? ==> top <= r.value < bottom && Matches(w, table[r.value])
    decreases bottom - top
  {
    if top == bottom then None
    else
      var idx := (top + bottom - 1) / 2;
      match Compare(w, table[idx])
      case Below => Probe(table, w, top, idx)
      case Above => Probe(table, w, idx + 1, bottom)
      case Same => Some(idx)
  }

  /**
   `find_opcode`: the index of the entry found.  For any table at all the answer is the
   one the probe sequence leads to, and an entry that is returned does match.
   */
  method FindOpcode(table: seq<Opcode>, instr: Word) returns (r: Option<nat>)
    ensures r == Probe(table, instr, 0, |table|)
    ensures r.Some? ==> r.value < |table| && Matches(instr, table[r.value])
    ensures SearchOrdered(table) ==> r == LinearFind(table, instr)
  {
    hide Compare, SearchOrdered, LinearFind;
    var top: int, bottom: int := 0, |table| - 1;
    while top <= bottom
      invariant 0 <= top <= bottom + 1 <= |table|
      invariant Probe(table, instr, 0, |table|) == Probe(table, instr, top, bottom + 1)
      decreases bottom - top
    {
      var idx := (top + bottom) / 2;
      var ptr := table[idx];
      match Compare(instr, ptr) {
        case Below =>
          bottom := idx - 1;
        case Above =>
          top := idx + 1;
        case Same =>
          if SearchOrdered(table) {
            ProbeIsLinear(table, instr);
          }
          return Some(idx);
      }
    }
    if SearchOrdered(table) {
      ProbeIsLinear(table, instr);
    }
    return None;
  }

  /**
   What the search relies on: a word that matches one entry compares above every earlier
   entry and below every later one, each comparison under the other entry's mask.
   */
  ghost predicate SearchOrdered(table: seq<Opcode>)
  {
    forall i, j, w ::
      0 <= i < j < |table| ==>
        && (Matches(w, table[j]) ==> Compare(w, table[i]) == Above)
        && (Matches(w, table[i]) ==> Compare(w, table[j]) == Below)
  }

  /** On an ordered table the search finds a match whenever there is one. */
  lemma {:induction false} ProbeComplete(table: seq<Opcode>, w: Word, top: nat, bottom: nat, k: nat)
    requires top <= k < bottom <= |table|
    requires SearchOrdered(table)
    requires Matches(w, table[k])
    ensures Probe(table, w, top, bottom) == Some(k)
    decreases bottom - top
  {
    var idx := (top + bottom - 1) / 2;
    if k < idx {
      ProbeComplete(table, w, top, idx, k);
    } else if idx < k {
      ProbeComplete(table, w, idx + 1, bottom, k);
    }
  }

  /** The masked binary search refines the linear scan, whose match is then the only one. */
  lemma ProbeIsLinear(table: seq<Opcode>, w: Word)
    requires SearchOrdered(table)
    ensures Probe(table, w, 0, |table|) == LinearFind(table, w)
    ensures forall i, j :: 0 <= i < j < |table| ==> !(Matches(w, table[i]) && Matches(w, table[j]))
  {
    match LinearFind(table, w)
    case None =>
    case Some(k) =>
      ProbeComplete(table, w, 0, |table|, k);
  }

  // ---------------------------------------------------------------------------------
  // Deciding the order from masks and opcodes alone

  /** An opcode has no bit outside its mask; otherwise nothing could match it. */
  predicate OpcodeInMask(op: Opcode)
  {
    SubMask(op.opcode, op.mask)
  }

  /**
   The least and the greatest word that match an entry are its opcode with the free bits
   all clear and all set; it is enough to compare those two.
   */
  predicate PairOrdered(lower: Opcode, upper: Opcode)
  {
    && Less(lower.opcode, Masked(upper.opcode, lower.mask))
    && Less(Masked(Greatest(lower), upper.mask), upper.opcode)
  }

  function Greatest(op: Opcode): Word
  {
    op.opcode | !op.mask
  }

  predicate MasksOrdered(table: seq<Opcode>)
  {
    forall i, j :: 0 <= i < j < |table| ==> PairOrdered(table[i], table[j])
  }

  lemma FreeBits(w: Word, opcode: Word, mask: Word, other: Word)
    requires Masked(w, mask) == opcode
    ensures SubMask(Masked(opcode, other), Masked(w, other))
    ensures SubMask(Masked(w, other), Masked(opcode | !mask, other))
  {
  }

  lemma PairOrderedForWord(lower: Opcode, upper: Opcode, w: Word)
    requires PairOrdered(lower, upper)
    ensures Matches(w, upper) ==> Compare(w, lower) == Above
    ensures Matches(w, lower) ==> Compare(w, upper) == Below
  {
    hide Less, Value, Masked, SubMask;
    LessIsValueLess(lower.opcode, Masked(upper.opcode, lower.mask));
    LessIsValueLess(Masked(Greatest(lower), upper.mask), upper.opcode);
    CompareIsValueCompare(w, lower);
    CompareIsValueCompare(w, upper);
    if Matches(w, upper) {
      FreeBits(w, upper.opcode, upper.mask, lower.mask);
      SubMaskBelow(Masked(upper.opcode, lower.mask), Masked(w, lower.mask));
    }
    if Matches(w, lower) {
      FreeBits(w, lower.opcode, lower.mask, upper.mask);
      SubMaskBelow(Masked(w, upper.mask), Masked(Greatest(lower), upper.mask));
    }
  }

  lemma ExtremeBits(opcode: Word, mask: Word)
    requires SubMask(opcode, mask)
    ensures Masked(opcode, mask) == opcode
    ensures Masked(opcode | !mask, mask) == opcode
  {
  }

  lemma ExtremesMatch(op: Opcode)
    requires OpcodeInMask(op)
    ensures Matches(op.opcode, op)
    ensures Matches(Greatest(op), op)
  {
    hide Less, Masked, SubMask;
    ExtremeBits(op.opcode, op.mask);
    CompareIsValueCompare(op.opcode, op);
    CompareIsValueCompare(Greatest(op), op);
  }

  lemma ExtremesGivePair(lower: Opcode, upper: Opcode)
    requires Compare(upper.opcode, lower) == Above
    requires Compare(Greatest(lower), upper) == Below
    ensures PairOrdered(lower, upper)
  {
    hide Less, Masked;
  }

  /** The order over all 2^32 words is exactly the order of the extremes. */
  lemma OrderDecidedByMasks(table: seq<Opcode>)
    requires forall i :: 0 <= i < |table| ==> OpcodeInMask(table[i])
    ensures SearchOrdered(table) <==> MasksOrdered(table)
  {
    if MasksOrdered(table) {
      forall i, j, w | 0 <= i < j < |table|
        ensures Matches(w, table[j]) ==> Compare(w, table[i]) == Above
        ensures Matches(w, table[i]) ==> Compare(w, table[j]) == Below
      {
        PairOrderedForWord(table[i], table[j], w);
      }
    }
    if SearchOrdered(table) {
      forall i, j | 0 <= i < j < |table|
        ensures PairOrdered(table[i], table[j])
      {
        ExtremesMatch(table[i]);
        ExtremesMatch(table[j]);
        ExtremesGivePair(table[i], table[j]);
      }
    }
  }

  // ---------------------------------------------------------------------------------
  // A condition on neighbours only

  const PRIMARY: Word := 0xfc00_0000

  /** The primary opcode, which every instruction form keeps in its top six bits. */
  function Primary(op: Opcode): Word
  {
    op.opcode >> 26
  }

  /**
   Every mask covers the primary opcode.  Neighbours are in order of their primary opcodes,
   and neighbours that share one also share their mask and are in numeric order.
   */
  predicate SortedByForm(table: seq<Opcode>)
  {
    && (forall i :: 0 <= i < |table| ==> OpcodeInMask(table[i]) && SubMask(PRIMARY, table[i].mask))
    && (forall i :: 0 <= i < |table| - 1 ==> FormOrdered(table[i], table[i + 1]))
  }

  predicate FormOrdered(lower: Opcode, upper: Opcode)
  {
    if Primary(lower) == Primary(upper)
    then lower.mask == upper.mask && Less(lower.opcode, upper.opcode)
    else Less(Primary(lower), Primary(upper))
  }

  lemma FormOrderedTrans(a: Opcode, b: Opcode, c: Opcode)
    requires FormOrdered(a, b) && FormOrdered(b, c)
    ensures FormOrdered(a, c)
  {
    hide Less, Value, Primary;
    LessIsValueLess(a.opcode, b.opcode);
    LessIsValueLess(b.opcode, c.opcode);
    LessIsValueLess(a.opcode, c.opcode);
    LessIsValueLess(Primary(a), Primary(b));
    LessIsValueLess(Primary(b), Primary(c));
    LessIsValueLess(Primary(a), Primary(c));
  }

  lemma {:induction false} FormChain(table: seq<Opcode>, i: nat, j: nat)
    requires i < j < |table|
    requires SortedByForm(table)
    ensures FormOrdered(table[i], table[j])
    decreases j
  {
    assert FormOrdered(table[j - 1], table[j - 1 + 1]);
    if i + 1 < j {
      FormChain(table, i, j - 1);
      FormOrderedTrans(table[i], table[j - 1], table[j]);
    }
  }

  lemma SameMaskBits(x: Word, y: Word, mask: Word)
    requires SubMask(x, mask) && SubMask(y, mask)
    ensures Masked(y, mask) == y
    ensures Masked(x | !mask, mask) == x
  {
  }

  lemma PrimaryDominates(x: Word, y: Word, m: Word, n: Word)
    requires SubMask(PRIMARY, m) && SubMask(PRIMARY, n)
    requires Less(x >> 26, y >> 26)
    ensures Less(x, Masked(y, m))
    ensures Less(Masked(x | !m, n), y)
  {
  }

  lemma FormGivesPair(a: Opcode, b: Opcode)
    requires OpcodeInMask(a) && OpcodeInMask(b)
    requires SubMask(PRIMARY, a.mask) && SubMask(PRIMARY, b.mask)
    requires FormOrdered(a, b)
    ensures PairOrdered(a, b)
  {
    hide Less, Masked, SubMask;
    if Primary(a) == Primary(b) {
      SameMaskBits(a.opcode, b.opcode, a.mask);
    } else {
      PrimaryDominates(a.opcode, b.opcode, a.mask, b.mask);
    }
  }

  /** A table sorted by form can be searched: every word's match is found, and is unique. */
  lemma SortedTableIsSearchable(table: seq<Opcode>)
    requires SortedByForm(table)
    ensures SearchOrdered(table)
  {
    forall i, j | 0 <= i < j < |table|
      ensures PairOrdered(table[i], table[j])
    {
      FormChain(table, i, j);
      FormGivesPair(table[i], table[j]);
    }
    OrderDecidedByMasks(table);
  }
}
