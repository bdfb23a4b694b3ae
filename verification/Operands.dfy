/**
 Operands as bit fields of an instruction word: reading one out, assembling a word from
 several, and the word-aligned branch targets that address operands stand for.
 */
module Operands {
  import opened Basics
  import opened Words
  import opened Opcodes

  // Operand identifiers that the code refers to by name.
  const O_AA := 1
  const O_BD := 2
  const O_BI := 3
  const O_BO := 4
  const O_LI := 14
  const O_LK := 15
  const O_rA := 20
  const O_cr2 := 35

  // The operands of branches.
  const BD_OPERAND := Operand(O_BD, 14, 2, OH_ADDR)
  const LI_OPERAND := Operand(O_LI, 24, 2, OH_ADDR)
  const BO_OPERAND := Operand(O_BO, 5, 21, 0)
  const BI_OPERAND := Operand(O_BI, 5, 16, 0)
  const AA_OPERAND := Operand(O_AA, 1, 1, OH_SILENT)
  const LK_OPERAND := Operand(O_LK, 1, 0, OH_SILENT)

  /** The classes of operand, in the order in which the hint bits are tested. */
  datatype Kind = Silent | Address | Register | Spr | Tbr | Literal | Immediate(offset: bool)

  function KindOf(o: Operand): Kind
  {
    if o.hint & OH_SILENT != 0 then Silent
    else if o.hint & OH_ADDR != 0 then Address
    else if o.hint & OH_REG != 0 then Register
    else if o.hint & OH_SPR != 0 then Spr
    else if o.hint & OH_TBR != 0 then Tbr
    else if o.hint & OH_LITERAL != 0 then Literal
    else Immediate(o.hint & OH_OFFSET != 0)
  }

  /** Field shapes that fit the way each class is printed and parsed. */
  predicate ValidOperand(o: Operand)
  {
    && ValidField(o.bits, o.shift)
    && match KindOf(o)
       case Silent => true
       case Address => 1 <= o.bits <= 30
       case Register => o.bits <= 5
       case Spr => o.bits == 10
       case Tbr => o.bits == 10
       case Literal => o.bits == 0 && o.field == O_cr2
       case Immediate(_) => o.bits <= 16
  }

  function MaskOf(o: Operand): Word
    requires ValidOperand(o)
  {
    FieldMask(o.bits, o.shift)
  }

  function ValueIn(w: Word, o: Operand): Word
    requires ValidOperand(o)
  {
    Extract(w, o.bits, o.shift)
  }

  function Placed(v: Word, o: Operand): Word
    requires ValidOperand(o)
  {
    Insert(v, o.bits, o.shift)
  }

  predicate InRange(v: Word, o: Operand)
    requires ValidOperand(o)
  {
    Fits(v, o.bits)
  }

  predicate ValidFields(operands: seq<Operand>, fields: seq<nat>)
  {
    && |fields| <= 8
    && forall i :: 0 <= i < |fields| ==>
         1 <= fields[i] <= |operands| && ValidOperand(operands[fields[i] - 1])
  }

  /** `get_operand_value`: the value of the named field, if the opcode has it. */
  method GetOperandValue(operands: seq<Operand>, op: Opcode, instr: Word, field: nat)
    returns (r: Option<Word>)
    requires 0 !in op.fields
    requires field in op.fields && field <= |operands| ==> ValidField(operands[field - 1].bits, operands[field - 1].shift)
    ensures r.Some? <==> field in op.fields && field <= |operands|
    ensures r.Some? ==> r.value == Extract(instr, operands[field - 1].bits, operands[field - 1].shift)
  {
    if field > |operands| {
      return None;
    }
    for i := 0 to |op.fields|
      invariant field !in op.fields[..i]
    {
      if op.fields[i] == field {
        var opr := operands[op.fields[i] - 1];
        return Some(Extract(instr, opr.bits, opr.shift));
      }
    }
    return None;
  }

  // ---------------------------------------------------------------------------------
  // Assembling a word from operand values

  predicate AllValid(ops: seq<Operand>)
  {
    forall i :: 0 <= i < |ops| ==> ValidOperand(ops[i])
  }

  function Union(a: Word, b: Word): Word
  {
    a | b
  }

  /** The bits that a list of operands occupies. */
  function MaskOfAll(ops: seq<Operand>): Word
    requires AllValid(ops)
  {
    if ops == [] then 0 else Union(MaskOf(ops[0]), MaskOfAll(ops[1..]))
  }

  /** The operands overlap neither each other nor the bits in `taken`. */
  predicate Separate(ops: seq<Operand>, taken: Word)
    requires AllValid(ops)
    decreases |ops|
  {
    ops != [] ==>
      && Masked(taken, MaskOf(ops[0])) == 0
      && Separate(ops[1..], Union(taken, MaskOf(ops[0])))
  }

  /** The assembler's accumulation of operand values into the instruction word. */
  function Encode(word: Word, ops: seq<Operand>, values: seq<Word>): Word
    requires AllValid(ops) && |values| == |ops|
    decreases |ops|
  {
    if ops == [] then word
    else Encode(Union(word, Placed(values[0], ops[0])), ops[1..], values[1..])
  }

  lemma PlacedBits(word: Word, taken: Word, v: Word, o: Operand)
    requires ValidOperand(o)
    requires SubMask(word, taken) && Masked(taken, MaskOf(o)) == 0
    ensures SubMask(Union(word, Placed(v, o)), Union(taken, MaskOf(o)))
    ensures Masked(Union(word, Placed(v, o)), taken) == word
    ensures Masked(Union(word, Placed(v, o)), MaskOf(o)) == Placed(v, o)
  {
    hide Insert, FieldMask, Masked, SubMask, Union, KindOf;
    InsertInField(v, o.bits, o.shift);
    PlacedBitsOf(word, taken, Placed(v, o), MaskOf(o));
  }

  lemma PlacedBitsOf(word: Word, taken: Word, p: Word, m: Word)
    requires SubMask(word, taken) && Masked(taken, m) == 0 && p & m == p
    ensures SubMask(Union(word, p), Union(taken, m))
    ensures Masked(Union(word, p), taken) == word
    ensures Masked(Union(word, p), m) == p
  {
    hide Masked, SubMask, Union;
    UnionInUnion(word, taken, p, m);
    UnionMaskedLeft(word, taken, p, m);
    UnionMaskedRight(word, taken, p, m);
  }

  lemma UnionInUnion(word: Word, taken: Word, p: Word, m: Word)
    requires SubMask(word, taken) && p & m == p
    ensures SubMask(Union(word, p), Union(taken, m))
  {
  }

  lemma UnionMaskedLeft(word: Word, taken: Word, p: Word, m: Word)
    requires SubMask(word, taken) && Masked(taken, m) == 0 && p & m == p
    ensures Masked(Union(word, p), taken) == word
  {
  }

  lemma UnionMaskedRight(word: Word, taken: Word, p: Word, m: Word)
    requires SubMask(word, taken) && Masked(taken, m) == 0 && p & m == p
    ensures Masked(Union(word, p), m) == p
  {
  }

  lemma MaskedTwice(w: Word, x: Word, outer: Word, inner: Word)
    requires Masked(w, outer) == x
    requires SubMask(inner, outer)
    ensures Masked(w, inner) == Masked(x, inner)
  {
  }

  lemma UnionCovers(a: Word, b: Word)
    ensures SubMask(a, Union(a, b)) && SubMask(b, Union(a, b))
  {
  }

  /** Assembling leaves every bit that was taken before as it was. */
  lemma {:induction false} EncodeKeeps(word: Word, ops: seq<Operand>, values: seq<Word>, taken: Word)
    requires AllValid(ops) && |values| == |ops|
    requires SubMask(word, taken) && Separate(ops, taken)
    ensures Masked(Encode(word, ops, values), taken) == word
    decreases |ops|
  {
    hide Masked, SubMask, Union, MaskOf, Placed;
    if ops == [] {
      SubMaskMasked(word, taken);
    } else {
      var o := ops[0];
      var next := Union(word, Placed(values[0], o));
      PlacedBits(word, taken, values[0], o);
      EncodeKeeps(next, ops[1..], values[1..], Union(taken, MaskOf(o)));
      UnionCovers(taken, MaskOf(o));
      MaskedTwice(Encode(word, ops, values), next, Union(taken, MaskOf(o)), taken);
    }
  }

  lemma SubMaskMasked(word: Word, taken: Word)
    requires SubMask(word, taken)
    ensures Masked(word, taken) == word
  {
  }

  /** Every operand value put into a word can be read out of it again. */
  lemma {:induction false} EncodeThenRead(word: Word, ops: seq<Operand>, values: seq<Word>, taken: Word, k: nat)
    requires AllValid(ops) && |values| == |ops|
    requires SubMask(word, taken) && Separate(ops, taken)
    requires k < |ops| && InRange(values[k], ops[k])
    ensures ValueIn(Encode(word, ops, values), ops[k]) == values[k]
    decreases |ops|
  {
    hide Masked, SubMask, Union, MaskOf, Placed, ValueIn, Fits;
    var o := ops[0];
    var next := Union(word, Placed(values[0], o));
    var taken' := Union(taken, MaskOf(o));
    PlacedBits(word, taken, values[0], o);
    if k == 0 {
      var result := Encode(word, ops, values);
      EncodeKeeps(next, ops[1..], values[1..], taken');
      UnionCovers(taken, MaskOf(o));
      MaskedTwice(result, next, taken', MaskOf(o));
      ReadPlaced(result, values[0], o);
    } else {
      EncodeThenRead(next, ops[1..], values[1..], taken', k - 1);
    }
  }

  lemma ReadPlaced(w: Word, v: Word, o: Operand)
    requires ValidOperand(o) && InRange(v, o)
    requires Masked(w, MaskOf(o)) == Placed(v, o)
    ensures ValueIn(w, o) == v
  {
    hide Extract, Insert, FieldMask, Fits, KindOf;
    InsertInField(v, o.bits, o.shift);
    ExtractLocal(w, Placed(v, o), o.bits, o.shift);
    ExtractInsert(v, o.bits, o.shift);
  }

  /**
   Encoding and decoding: for an opcode whose visible operands are separate from its mask
   and from each other, the assembled word still matches the opcode and gives back every
   operand value.
   */
  lemma EncodeDecode(op: Opcode, ops: seq<Operand>, values: seq<Word>)
    requires OpcodeInMask(op)
    requires AllValid(ops) && |values| == |ops| && Separate(ops, op.mask)
    requires forall k :: 0 <= k < |ops| ==> InRange(values[k], ops[k])
    ensures Matches(Encode(op.opcode, ops, values), op)
    ensures forall k :: 0 <= k < |ops| ==> ValueIn(Encode(op.opcode, ops, values), ops[k]) == values[k]
  {
    hide Masked, SubMask, ValueIn, Fits, Less;
    EncodeKeeps(op.opcode, ops, values, op.mask);
    CompareIsValueCompare(Encode(op.opcode, ops, values), op);
    forall k | 0 <= k < |ops|
      ensures ValueIn(Encode(op.opcode, ops, values), ops[k]) == values[k]
    {
      EncodeThenRead(op.opcode, ops, values, op.mask, k);
    }
  }

  lemma {:induction false} MaskedUnion(w: Word, word: Word, ops: seq<Operand>, values: seq<Word>)
    requires AllValid(ops) && |values| == |ops|
    requires forall k :: 0 <= k < |ops| ==> Placed(values[k], ops[k]) == Masked(w, MaskOf(ops[k]))
    ensures Encode(word, ops, values) == Union(word, Masked(w, MaskOfAll(ops)))
    decreases |ops|
  {
    hide Masked, Union, MaskOf, Placed;
    if ops == [] {
      UnionOfNone(w, word);
    } else {
      var o := ops[0];
      MaskedUnion(w, Union(word, Placed(values[0], o)), ops[1..], values[1..]);
      UnionOfMasks(w, word, MaskOf(o), MaskOfAll(ops[1..]));
    }
  }

  lemma UnionOfNone(w: Word, word: Word)
    ensures word == Union(word, Masked(w, 0))
  {
  }

  lemma UnionOfMasks(w: Word, word: Word, a: Word, b: Word)
    ensures Union(Union(word, Masked(w, a)), Masked(w, b)) == Union(word, Masked(w, Union(a, b)))
  {
  }

  // ---------------------------------------------------------------------------------
  // Address operands

  predicate Relative(op: Opcode)
  {
    op.hint & H_RELATIVE != 0
  }

  /** The target that the disassembler prints for an address operand of `instr` at `virt`. */
  function TargetOf(instr: Word, op: Opcode, o: Operand, virt: Word): Word
    requires ValidOperand(o) && KindOf(o) == Address
  {
    Displaced(Displacement(ValueIn(instr, o), o.bits), op, virt)
  }

  function Displacement(x: Word, bits: Word): Word
    requires 1 <= bits <= 30
  {
    Times4(SignExtend(x, bits))
  }

  function Times4(s: Word): Word
  {
    s << 2
  }

  function Plus(a: Word, b: Word): Word
  {
    a + b
  }

  function Minus(a: Word, b: Word): Word
  {
    a - b
  }

  function Displaced(d: Word, op: Opcode, addr: Word): Word
  {
    if Relative(op) then Plus(d, addr) else d
  }

  function DisplacementTo(target: Word, op: Opcode, addr: Word): Word
  {
    if Relative(op) then Minus(target, addr) else target
  }

  function TopBit(bits: Word): Word
    requires 1 <= bits <= 30
  {
    1 << (bits - 1)
  }

  function BelowTop(bits: Word): Word
    requires 1 <= bits <= 30
  {
    Ones(bits) >> 1
  }

  /** The field that the assembler computes for a displacement. */
  function FieldOf(d: Word, bits: Word): Word
    requires 1 <= bits <= 30
  {
    var x := Masked(ShiftRight2(d), BelowTop(bits));
    if Negative(d) then Union(x, TopBit(bits)) else x
  }

  lemma DisplacedBack(d: Word, op: Opcode, addr: Word)
    ensures DisplacementTo(Displaced(d, op, addr), op, addr) == d
    ensures Displaced(DisplacementTo(d, op, addr), op, addr) == d
  {
    hide Relative, Plus, Minus;
    MinusPlus(d, addr);
    PlusMinus(d, addr);
  }

  lemma MinusSum(d: Word, addr: Word)
    ensures Minus(d + addr, addr) == d
  {
  }

  lemma PlusDifference(d: Word, addr: Word)
    ensures Plus(d - addr, addr) == d
  {
  }

  lemma MinusPlus(d: Word, addr: Word)
    ensures Minus(Plus(d, addr), addr) == d
  {
    hide Minus;
    MinusSum(d, addr);
  }

  lemma PlusMinus(d: Word, addr: Word)
    ensures Plus(Minus(d, addr), addr) == d
  {
    hide Plus;
    PlusDifference(d, addr);
  }

  function Complement(x: Word): Word
  {
    !x
  }

  predicate Lacks(x: Word, y: Word, z: Word)
  {
    x == y & !z
  }

  predicate HighClear(x: Word)
  {
    x & 0xE000_0000 == 0
  }

  predicate HighSet(x: Word)
  {
    x & 0xE000_0000 == 0xE000_0000
  }

  predicate TopSet(x: Word, bits: Word)
    requires 1 <= bits <= 30
  {
    Masked(x, TopBit(bits)) != 0
  }

  lemma SignExtendClear(x: Word, bits: Word)
    requires 1 <= bits <= 30 && Fits(x, bits) && !TopSet(x, bits)
    ensures SignExtend(x, bits) == x
    ensures HighClear(x)
  {
  }

  /** Without borrowing from below, subtracting sets all bits from a power of two up. */
  lemma SubtractAbove(x: Word, p: Word)
    requires x & !(p - 1) == 0
    ensures x - p == x | !(p - 1)
  {
  }

  lemma SignExtendSet(x: Word, bits: Word)
    requires 1 <= bits <= 30 && Fits(x, bits) && TopSet(x, bits)
    ensures SignExtend(x, bits) == Union(x, Complement(Ones(bits)))
  {
    assert x - (1 << bits) == x | !((1 << bits) - 1) by {
      SubtractAbove(x, 1 << bits);
    }
  }

  lemma SignExtendHigh(x: Word, bits: Word)
    requires 1 <= bits <= 30 && Fits(x, bits) && TopSet(x, bits)
    ensures HighSet(Union(x, Complement(Ones(bits))))
  {
  }

  lemma ShiftBackClear(s: Word)
    requires HighClear(s)
    ensures !Negative(Times4(s)) && ShiftRight2(Times4(s)) == s
  {
  }

  lemma ShiftBackSet(s: Word)
    requires HighSet(s)
    ensures Negative(Times4(s)) && ShiftRight2(Times4(s)) == s
  {
  }

  lemma BelowTopBits(bits: Word)
    requires 1 <= bits <= 30
    ensures Lacks(BelowTop(bits), Ones(bits), TopBit(bits))
    ensures SubMask(TopBit(bits), Ones(bits))
    ensures TopBit(bits) != 0
  {
  }

  lemma TopBitIsOneBit(x: Word, bits: Word)
    requires 1 <= bits <= 30 && TopSet(x, bits)
    ensures SubMask(TopBit(bits), x)
  {
  }

  lemma RejoinClear(x: Word, ones: Word, top: Word, below: Word)
    requires Lacks(below, ones, top) && SubMask(x, ones) && Masked(x, top) == 0
    ensures Masked(x, below) == x
  {
  }

  lemma RejoinSet(x: Word, ones: Word, top: Word, below: Word)
    requires Lacks(below, ones, top) && SubMask(x, ones) && SubMask(top, x)
    ensures Union(Masked(Union(x, Complement(ones)), below), top) == x
  {
  }

  /** The assembler recovers an address field from the displacement printed for it. */
  lemma FieldOfDisplacement(x: Word, bits: Word)
    requires 1 <= bits <= 30 && Fits(x, bits)
    ensures FieldOf(Displacement(x, bits), bits) == x
  {
    hide SignExtend, ShiftRight2, Negative, TopBit, Ones, BelowTop, Masked, Union, Times4, SubMask, TopSet, Fits,
      Complement, Lacks, HighSet, HighClear;
    BelowTopBits(bits);
    FitsIsSubMask(x, bits);
    if TopSet(x, bits) {
      SignExtendSet(x, bits);
      SignExtendHigh(x, bits);
      ShiftBackSet(SignExtend(x, bits));
      TopBitIsOneBit(x, bits);
      RejoinSet(x, Ones(bits), TopBit(bits), BelowTop(bits));
    } else {
      TopClear(x, bits);
      SignExtendClear(x, bits);
      ShiftBackClear(x);
      RejoinClear(x, Ones(bits), TopBit(bits), BelowTop(bits));
    }
  }

  lemma FitsIsSubMask(x: Word, bits: Word)
    requires bits <= 31
    ensures Fits(x, bits) <==> SubMask(x, Ones(bits))
  {
  }

  lemma TopClear(x: Word, bits: Word)
    requires 1 <= bits <= 30
    ensures !TopSet(x, bits) <==> Masked(x, TopBit(bits)) == 0
  {
    hide Masked, TopBit;
  }

  predicate WordAligned(d: Word)
  {
    d & 3 == 0
  }

  /** Word-aligned, and within the signed range of a `bits`-bit field of words. */
  predicate Encodable(d: Word, bits: Word)
    requires 1 <= bits <= 30
  {
    && WordAligned(d)
    && (if Negative(d) then SubMask(Complement(d), Ones(bits + 1)) else SubMask(d, Ones(bits + 1)))
  }

  lemma AlignedShift(d: Word)
    requires WordAligned(d)
    ensures Times4(ShiftRight2(d)) == d
  {
    hide Times4;
    if Negative(d) {
      ShiftPairSet(d);
    } else {
      ShiftPairClear(d);
    }
  }

  lemma ShiftPairSet(d: Word)
    requires WordAligned(d)
    ensures Times4((d >> 2) | 0xC000_0000) == d
  {
  }

  lemma ShiftPairClear(d: Word)
    requires WordAligned(d)
    ensures Times4(d >> 2) == d
  {
  }

  lemma ShiftedNegative(d: Word, bits: Word)
    requires 1 <= bits <= 30 && Negative(d) && SubMask(Complement(d), Ones(bits + 1))
    ensures SubMask(Complement(ShiftRight2(d)), BelowTop(bits))
  {
  }

  lemma ShiftedPositive(d: Word, bits: Word)
    requires 1 <= bits <= 30 && !Negative(d) && SubMask(d, Ones(bits + 1))
    ensures SubMask(ShiftRight2(d), BelowTop(bits))
  {
  }

  lemma NegativeFits(s: Word, ones: Word, top: Word, below: Word)
    requires Lacks(below, ones, top) && SubMask(top, ones)
    ensures SubMask(Union(Masked(s, below), top), ones)
  {
  }

  lemma NegativeTop(s: Word, top: Word)
    ensures Masked(Union(s, top), top) == top
  {
  }

  lemma NegativeRejoin(s: Word, ones: Word, top: Word, below: Word)
    requires Lacks(below, ones, top) && SubMask(top, ones) && SubMask(Complement(s), below)
    ensures Union(Union(Masked(s, below), top), Complement(ones)) == s
  {
  }

  lemma PositiveFits(s: Word, ones: Word, top: Word, below: Word)
    requires Lacks(below, ones, top) && SubMask(s, below)
    ensures SubMask(s, ones)
    ensures Masked(s, below) == s
  {
  }

  lemma PositiveTop(s: Word, ones: Word, top: Word, below: Word)
    requires Lacks(below, ones, top) && SubMask(s, below)
    ensures Masked(s, top) == 0
  {
  }

  lemma NegativeOfField(d: Word, bits: Word)
    requires 1 <= bits <= 30 && Encodable(d, bits) && Negative(d)
    ensures Displacement(FieldOf(d, bits), bits) == d
  {
    hide SignExtend, ShiftRight2, Negative, TopBit, Ones, BelowTop, Masked, Union, Times4, SubMask, TopSet, Fits, WordAligned,
      Complement, Lacks, HighSet, HighClear;
    var s, ones, top, below := ShiftRight2(d), Ones(bits), TopBit(bits), BelowTop(bits);
    var x := FieldOf(d, bits);
    AlignedShift(d);
    BelowTopBits(bits);
    FitsIsSubMask(x, bits);
    TopClear(x, bits);
    ShiftedNegative(d, bits);
    NegativeFits(s, ones, top, below);
    NegativeTop(Masked(s, below), top);
    NegativeRejoin(s, ones, top, below);
    SignExtendSet(x, bits);
  }

  lemma PositiveOfField(d: Word, bits: Word)
    requires 1 <= bits <= 30 && Encodable(d, bits) && !Negative(d)
    ensures Displacement(FieldOf(d, bits), bits) == d
  {
    hide SignExtend, ShiftRight2, Negative, TopBit, Ones, BelowTop, Masked, Union, Times4, SubMask, TopSet, Fits, WordAligned,
      Complement, Lacks, HighSet, HighClear;
    var s, ones, top, below := ShiftRight2(d), Ones(bits), TopBit(bits), BelowTop(bits);
    var x := FieldOf(d, bits);
    AlignedShift(d);
    BelowTopBits(bits);
    FitsIsSubMask(x, bits);
    TopClear(x, bits);
    ShiftedPositive(d, bits);
    PositiveFits(s, ones, top, below);
    PositiveTop(s, ones, top, below);
    SignExtendClear(x, bits);
  }

  /** An encodable displacement comes back from its field. */
  lemma DisplacementOfField(d: Word, bits: Word)
    requires 1 <= bits <= 30 && Encodable(d, bits)
    ensures Displacement(FieldOf(d, bits), bits) == d
  {
    hide Displacement, FieldOf, Encodable, Negative;
    if Negative(d) {
      NegativeOfField(d, bits);
    } else {
      PositiveOfField(d, bits);
    }
  }

  lemma Times4Aligned(s: Word)
    ensures WordAligned(Times4(s))
  {
  }

  lemma Times4Positive(x: Word, bits: Word)
    requires 1 <= bits <= 30 && Fits(x, bits) && !TopSet(x, bits)
    ensures SubMask(Times4(x), Ones(bits + 1))
  {
  }

  lemma Times4Negative(x: Word, bits: Word)
    requires 1 <= bits <= 30 && Fits(x, bits) && TopSet(x, bits)
    ensures SubMask(Complement(Times4(Union(x, Complement(Ones(bits))))), Ones(bits + 1))
  {
  }

  lemma DisplacementEncodable(x: Word, bits: Word)
    requires 1 <= bits <= 30 && Fits(x, bits)
    ensures Encodable(Displacement(x, bits), bits)
  {
    hide SignExtend, Negative, Ones, Union, Times4, SubMask, TopSet, Fits, WordAligned;
    Times4Aligned(SignExtend(x, bits));
    if TopSet(x, bits) {
      SignExtendSet(x, bits);
      SignExtendHigh(x, bits);
      ShiftBackSet(SignExtend(x, bits));
      Times4Negative(x, bits);
    } else {
      SignExtendClear(x, bits);
      ShiftBackClear(x);
      Times4Positive(x, bits);
    }
  }

  lemma FieldOfFits(d: Word, bits: Word)
    requires 1 <= bits <= 30
    ensures Fits(FieldOf(d, bits), bits)
  {
  }

  /**
   Assembling a branch to `target` and decoding it again gives `target` modulo 2^32 exactly
   when the displacement is word-aligned and in the signed range of the field.
   */
  lemma TargetRoundTrip(target: Word, op: Opcode, bits: Word, addr: Word)
    requires 1 <= bits <= 30
    ensures var d := DisplacementTo(target, op, addr);
            Displaced(Displacement(FieldOf(d, bits), bits), op, addr) == target <==> Encodable(d, bits)
  {
    hide Displacement, FieldOf, Encodable, Displaced, DisplacementTo;
    var d := DisplacementTo(target, op, addr);
    DisplacedBack(target, op, addr);
    var e := Displacement(FieldOf(d, bits), bits);
    DisplacedBack(e, op, addr);
    if Encodable(d, bits) {
      DisplacementOfField(d, bits);
    }
    if Displaced(e, op, addr) == target {
      FieldOfFits(d, bits);
      DisplacementEncodable(FieldOf(d, bits), bits);
    }
  }
}
