/**
 Single-stepping: `find_next_address` predicts where execution goes after the instruction at
 the program counter.  The prediction is compared with the next instruction address that
 section 2.4, "Branch Instructions", of Power ISA Book I defines.
 */
module Stepper {
  import opened Basics
  import opened Words
  import opened Opcodes
  import opened Operands
  import opened Disassembler

  datatype Regs = Regs(nip: Word, ctr: Word, ccr: Word, link: Word)

  // ---------------------------------------------------------------------------------
  // The architecture

  datatype Form = Unconditional | Conditional | ToLink | ToCount | NoBranch

  const EXTENDED: Word := 0x0000_07fe

  /** The branch form of an instruction: primary opcodes 18 and 16, and two entries of 19. */
  function FormOf(instr: Word): Form
  {
    if instr >> 26 == 18 then Unconditional
    else if instr >> 26 == 16 then Conditional
    else if instr >> 26 == 19 && instr & EXTENDED == 16 << 1 then ToLink
    else if instr >> 26 == 19 && instr & EXTENDED == 528 << 1 then ToCount
    else NoBranch
  }

  /** Bit `n` of the BO field, counted from the left; BO is bits 6 to 10 of the instruction. */
  predicate BO(instr: Word, n: Word)
    requires n <= 4
  {
    instr & (0x0200_0000 >> n) != 0
  }

  /** The condition register bit that the BI field, bits 11 to 15, selects. */
  predicate CRBit(instr: Word, cr: Word)
  {
    cr & (SIGN_BIT >> ((instr >> 16) & 0x1f)) != 0
  }

  predicate CountOk(instr: Word, ctr: Word)
  {
    var ctr' := if BO(instr, 2) then ctr else Minus(ctr, 1);
    BO(instr, 2) || ((ctr' != 0) != BO(instr, 3))
  }

  predicate ConditionOk(instr: Word, cr: Word)
  {
    BO(instr, 0) || (CRBit(instr, cr) == BO(instr, 1))
  }

  /**
   Whether the branch is taken.  A branch to the count register tests the condition only; that it
   also decrements the register is an invalid form, for which the description is taken literally.
   */
  predicate Taken(instr: Word, regs: Regs)
  {
    match FormOf(instr)
    case Unconditional => true
    case Conditional => CountOk(instr, regs.ctr) && ConditionOk(instr, regs.ccr)
    case ToLink => CountOk(instr, regs.ctr) && ConditionOk(instr, regs.ccr)
    case ToCount => ConditionOk(instr, regs.ccr)
    case NoBranch => false
  }

  predicate AbsoluteAddress(instr: Word)
  {
    instr & 2 != 0
  }

  predicate LinkBit(instr: Word)
  {
    instr & 1 != 0
  }

  /** EXTS(LI || 0b00) */
  function LongDisplacement(instr: Word): Word
  {
    var d := instr & 0x03ff_fffc;
    if instr & 0x0200_0000 != 0 then d | 0xfc00_0000 else d
  }

  /** EXTS(BD || 0b00) */
  function ShortDisplacement(instr: Word): Word
  {
    var d := instr & 0x0000_fffc;
    if instr & 0x0000_8000 != 0 then d | 0xffff_0000 else d
  }

  function DropLowBits(w: Word): Word
  {
    w & 0xffff_fffc
  }

  function Target(instr: Word, pc: Word, regs: Regs): Word
  {
    match FormOf(instr)
    case Unconditional =>
      if AbsoluteAddress(instr) then LongDisplacement(instr) else Plus(LongDisplacement(instr), pc)
    case Conditional =>
      if AbsoluteAddress(instr) then ShortDisplacement(instr) else Plus(ShortDisplacement(instr), pc)
    case ToLink => DropLowBits(regs.link)
    case ToCount => DropLowBits(regs.ctr)
    case NoBranch => Plus(pc, 4)
  }

  /** NIA, the next instruction address. */
  function NextInstructionAddress(instr: Word, pc: Word, regs: Regs): Word
  {
    if Taken(instr, regs) then Target(instr, pc, regs) else Plus(pc, 4)
  }

  // ---------------------------------------------------------------------------------
  // The code

  predicate IsBc(opcode: Word)
  {
    opcode == 0x4000_0000 || opcode == 0x4000_0001 || opcode == 0x4000_0002 || opcode == 0x4000_0003
  }

  predicate IsB(opcode: Word)
  {
    opcode == 0x4800_0000 || opcode == 0x4800_0001 || opcode == 0x4800_0002 || opcode == 0x4800_0003
  }

  predicate IsBcctr(opcode: Word)
  {
    opcode == 0x4c00_0420 || opcode == 0x4c00_0421
  }

  predicate IsBclr(opcode: Word)
  {
    opcode == 0x4c00_0020 || opcode == 0x4c00_0021
  }

  function CrMask(bi: Word): Word
  {
    if bi <= 31 then 1 << (31 - bi) else 0
  }

  /** The switch on the upper four bits of BO; the other values leave both flags clear. */
  function Decision(bo: Word, crSet: bool, ctr: Word): bool
  {
    var left := Minus(ctr, 1);
    match (bo & 0x1e) >> 1
    case 0 => left != 0 && !crSet
    case 1 => left == 0 && !crSet
    case 2 => !crSet
    case 4 => left != 0 && crSet
    case 5 => left == 0 && crSet
    case 6 => crSet
    case 8 => left != 0
    case 9 => left == 0
    case 10 => true
    case _ => false
  }

  /** The operand table describes the branch fields as the instruction set lays them out. */
  predicate BranchOperands(operands: seq<Operand>)
  {
    && |operands| >= O_LK
    && operands[O_BD - 1] == BD_OPERAND
    && operands[O_LI - 1] == LI_OPERAND
    && operands[O_BO - 1] == BO_OPERAND
    && operands[O_BI - 1] == BI_OPERAND
    && operands[O_AA - 1] == AA_OPERAND
    && operands[O_LK - 1] == LK_OPERAND
  }

  /** Branch opcodes list the operands that stepping asks for. */
  predicate BranchFields(op: Opcode)
  {
    && (IsBc(op.opcode) ==>
          O_BD in op.fields && O_BO in op.fields && O_BI in op.fields && O_AA in op.fields && O_LK in op.fields)
    && (IsB(op.opcode) ==> O_LI in op.fields && O_AA in op.fields && O_LK in op.fields)
    && (IsBcctr(op.opcode) || IsBclr(op.opcode) ==>
          O_BO in op.fields && O_BI in op.fields && O_LK in op.fields)
  }

  predicate Steppable(t: Tables)
  {
    && AllFieldsValid(t)
    && BranchOperands(t.operands)
    && forall i :: 0 <= i < |t.opcodes| ==> BranchFields(t.opcodes[i])
  }

  /** The local variables of the code after its switch on the opcode. */
  datatype Decoded = Decoded(addr: Word, aa: Word, lk: Word, bo: Word, bi: Word, conditional: bool, branch: bool)

  function DecodedOf(opcode: Word, instr: Word, regs: Regs): Decoded
  {
    var bo, bi := ValueIn(instr, BO_OPERAND), ValueIn(instr, BI_OPERAND);
    var aa, lk := ValueIn(instr, AA_OPERAND), ValueIn(instr, LK_OPERAND);
    if IsBc(opcode) then
      Decoded(Displacement(ValueIn(instr, BD_OPERAND), 14), aa, lk, bo, bi, true, true)
    else if IsB(opcode) then
      Decoded(Displacement(ValueIn(instr, LI_OPERAND), 24), aa, lk, 0, 0, false, true)
    else if IsBcctr(opcode) then Decoded(regs.ctr, 1, lk, bo, bi, true, true)
    else if IsBclr(opcode) then Decoded(regs.link, 1, lk, bo, bi, true, true)
    else Decoded(0, 0, 0, 0, 0, false, false)
  }

  /** Whether the code expects the branch to be taken, where to, and whether it links. */
  datatype Branch = Branch(taken: bool, target: Word, link: bool)

  function Predicted(d: Decoded, pc: Word, regs: Regs): Branch
  {
    Branch(d.branch && (!d.conditional || Decision(d.bo, Masked(regs.ccr, CrMask(d.bi)) != 0, regs.ctr)),
           if d.aa != 0 then d.addr else Plus(d.addr, pc),
           d.lk != 0)
  }

  function StepAddress(b: Branch, pc: Word): Word
  {
    if b.taken then b.target else Plus(pc, 4)
  }

  /** Stepping over stops behind a branch that is taken and links, and steps otherwise. */
  function NextAddress(b: Branch, pc: Word): Word
  {
    if b.taken && b.link then Plus(pc, 4) else StepAddress(b, pc)
  }

  function ProgramCounter(regs: Regs): Word
  {
    regs.nip & 0xffff_fffc
  }

  /** `get_operand_value` for an operand whose table entry is known. */
  method FieldValue(t: Tables, op: Opcode, instr: Word, field: nat, o: Operand) returns (r: Option<Word>)
    requires ValidFields(t.operands, op.fields)
    requires 1 <= field <= |t.operands| && t.operands[field - 1] == o && ValidOperand(o)
    ensures r == if field in op.fields then Some(ValueIn(instr, o)) else None
  {
    r := GetOperandValue(t.operands, op, instr, field);
  }

  method DecodeBc(t: Tables, op: Opcode, instr: Word) returns (r: Option<Decoded>)
    requires ValidFields(t.operands, op.fields) && BranchOperands(t.operands)
    ensures r ==
            if O_BD in op.fields && O_BO in op.fields && O_BI in op.fields && O_AA in op.fields && O_LK in op.fields
            then Some(Decoded(Displacement(ValueIn(instr, BD_OPERAND), 14), ValueIn(instr, AA_OPERAND),
                              ValueIn(instr, LK_OPERAND), ValueIn(instr, BO_OPERAND), ValueIn(instr, BI_OPERAND),
                              true, true))
            else None
  {
    hide Displacement, ValueIn;
    var bd := FieldValue(t, op, instr, O_BD, BD_OPERAND);
    var bo := FieldValue(t, op, instr, O_BO, BO_OPERAND);
    var bi := FieldValue(t, op, instr, O_BI, BI_OPERAND);
    var aa := FieldValue(t, op, instr, O_AA, AA_OPERAND);
    var lk := FieldValue(t, op, instr, O_LK, LK_OPERAND);
    if bd.None? || bo.None? || bi.None? || aa.None? || lk.None? {
      return None;
    }
    return Some(Decoded(Displacement(bd.value, 14), aa.value, lk.value, bo.value, bi.value, true, true));
  }

  method DecodeB(t: Tables, op: Opcode, instr: Word) returns (r: Option<Decoded>)
    requires ValidFields(t.operands, op.fields) && BranchOperands(t.operands)
    ensures r ==
            if O_LI in op.fields && O_AA in op.fields && O_LK in op.fields
            then Some(Decoded(Displacement(ValueIn(instr, LI_OPERAND), 24), ValueIn(instr, AA_OPERAND),
                              ValueIn(instr, LK_OPERAND), 0, 0, false, true))
            else None
  {
    hide Displacement, ValueIn;
    var li := FieldValue(t, op, instr, O_LI, LI_OPERAND);
    var aa := FieldValue(t, op, instr, O_AA, AA_OPERAND);
    var lk := FieldValue(t, op, instr, O_LK, LK_OPERAND);
    if li.None? || aa.None? || lk.None? {
      return None;
    }
    return Some(Decoded(Displacement(li.value, 24), aa.value, lk.value, 0, 0, false, true));
  }

  method DecodeToRegister(t: Tables, op: Opcode, instr: Word, addr: Word) returns (r: Option<Decoded>)
    requires ValidFields(t.operands, op.fields) && BranchOperands(t.operands)
    ensures r ==
            if O_BO in op.fields && O_BI in op.fields && O_LK in op.fields
            then Some(Decoded(addr, 1, ValueIn(instr, LK_OPERAND), ValueIn(instr, BO_OPERAND),
                              ValueIn(instr, BI_OPERAND), true, true))
            else None
  {
    hide ValueIn;
    var bo := FieldValue(t, op, instr, O_BO, BO_OPERAND);
    var bi := FieldValue(t, op, instr, O_BI, BI_OPERAND);
    var lk := FieldValue(t, op, instr, O_LK, LK_OPERAND);
    if bo.None? || bi.None? || lk.None? {
      return None;
    }
    return Some(Decoded(addr, 1, lk.value, bo.value, bi.value, true, true));
  }

  /** The switch on the opcode; None if the opcode lacks an operand that it should have. */
  method DecodeBranch(t: Tables, op: Opcode, instr: Word, regs: Regs) returns (r: Option<Decoded>)
    requires ValidFields(t.operands, op.fields) && BranchOperands(t.operands)
    ensures r == if BranchFields(op) then Some(DecodedOf(op.opcode, instr, regs)) else None
  {
    OnlyOneKind(op.opcode);
    hide Displacement, ValueIn, IsBc, IsB, IsBcctr, IsBclr, ValidFields, BranchOperands;
    if IsBc(op.opcode) {
      r := DecodeBc(t, op, instr);
    } else if IsB(op.opcode) {
      r := DecodeB(t, op, instr);
    } else if IsBcctr(op.opcode) {
      r := DecodeToRegister(t, op, instr, regs.ctr);
    } else if IsBclr(op.opcode) {
      r := DecodeToRegister(t, op, instr, regs.link);
    } else {
      r := Some(Decoded(0, 0, 0, 0, 0, false, false));
    }
  }

  /**
   `find_next_address`: the address to stop at for "step" or, with `stepOver`, for "next"; None
   if the instruction cannot be decoded.
   */
  method FindNextAddress(t: Tables, fetch: Word -> Word, stepOver: bool, regs: Regs) returns (r: Option<Word>)
    requires AllFieldsValid(t) && BranchOperands(t.operands)
    ensures var pc := ProgramCounter(regs);
            match Probe(t.opcodes, fetch(pc), 0, |t.opcodes|)
            case None => r == None
            case Some(i) =>
              var b := Predicted(DecodedOf(t.opcodes[i].opcode, fetch(pc), regs), pc, regs);
              r == if !BranchFields(t.opcodes[i]) then None
                   else Some(if stepOver then NextAddress(b, pc) else StepAddress(b, pc))
  {
    hide DecodedOf, Decision, CrMask, Masked, Plus, ProgramCounter, BranchFields;
    var pc := ProgramCounter(regs);
    var instr := fetch(pc);
    var found := FindOpcode(t.opcodes, instr);
    if found.None? {
      return None;
    }
    var op := t.opcodes[found.value];
    var decoded := DecodeBranch(t, op, instr, regs);
    if decoded.None? {
      return None;
    }
    var Decoded(addr, aa, lk, bo, bi, conditional, branch) := decoded.value;
    var ok := false;
    if conditional {
      ok := Decision(bo, Masked(regs.ccr, CrMask(bi)) != 0, regs.ctr);
    }
    var step, next;
    if branch && (!conditional || ok) {
      step := if aa != 0 then addr else Plus(addr, pc);
      next := if lk != 0 then Plus(pc, 4) else step;
    } else {
      step := Plus(pc, 4);
      next := step;
    }
    return Some(if stepOver then next else step);
  }

  // ---------------------------------------------------------------------------------
  // The prediction against the architecture

  predicate HasOpcode(t: Tables, opcode: Word, mask: Word)
  {
    exists i :: 0 <= i < |t.opcodes| && t.opcodes[i].opcode == opcode && t.opcodes[i].mask == mask
  }

  /** The table lists all branches of the instruction set. */
  predicate HasBranches(t: Tables)
  {
    && HasOpcode(t, 0x4000_0000, B_MASK) && HasOpcode(t, 0x4000_0001, B_MASK)
    && HasOpcode(t, 0x4000_0002, B_MASK) && HasOpcode(t, 0x4000_0003, B_MASK)
    && HasOpcode(t, 0x4800_0000, B_MASK) && HasOpcode(t, 0x4800_0001, B_MASK)
    && HasOpcode(t, 0x4800_0002, B_MASK) && HasOpcode(t, 0x4800_0003, B_MASK)
    && HasOpcode(t, 0x4c00_0420, X_MASK) && HasOpcode(t, 0x4c00_0421, X_MASK)
    && HasOpcode(t, 0x4c00_0020, X_MASK) && HasOpcode(t, 0x4c00_0021, X_MASK)
  }

  predicate BranchMask(op: Opcode)
  {
    && (IsBc(op.opcode) || IsB(op.opcode) ==> op.mask == B_MASK)
    && (IsBcctr(op.opcode) || IsBclr(op.opcode) ==> op.mask == X_MASK)
  }

  /**
   The bits of BO that do not take part in the test are zero: bit 3 if the count register is not
   tested and bit 1 if the condition is not.  They are z bits, to be ignored, in the PowerPC
   architecture books; Power ISA Book I makes most of them branch hints, which do not change the
   outcome of the test either.
   */
  predicate ReservedBitsClear(instr: Word)
  {
    && (BO(instr, 2) ==> !BO(instr, 3))
    && (BO(instr, 0) ==> !BO(instr, 1))
  }

  // The bits that the code extracts are the fields of the instruction set.

  lemma ShortSet(instr: Word)
    requires TopSet(ValueIn(instr, BD_OPERAND), 14)
    ensures Times4(Union(ValueIn(instr, BD_OPERAND), Complement(Ones(14)))) == ShortDisplacement(instr)
  {
  }

  lemma ShortClear(instr: Word)
    requires !TopSet(ValueIn(instr, BD_OPERAND), 14)
    ensures Times4(ValueIn(instr, BD_OPERAND)) == ShortDisplacement(instr)
  {
  }

  lemma ShortDisplacementAgrees(instr: Word)
    ensures Displacement(ValueIn(instr, BD_OPERAND), 14) == ShortDisplacement(instr)
  {
    hide ValueIn, TopSet, Times4, Union, Complement, Ones, ShortDisplacement, SignExtend, Fits, HighClear;
    ValueFits(instr, BD_OPERAND);
    if TopSet(ValueIn(instr, BD_OPERAND), 14) {
      SignExtendSet(ValueIn(instr, BD_OPERAND), 14);
      ShortSet(instr);
    } else {
      SignExtendClear(ValueIn(instr, BD_OPERAND), 14);
      ShortClear(instr);
    }
  }

  lemma LongSet(instr: Word)
    requires TopSet(ValueIn(instr, LI_OPERAND), 24)
    ensures Times4(Union(ValueIn(instr, LI_OPERAND), Complement(Ones(24)))) == LongDisplacement(instr)
  {
  }

  lemma LongClear(instr: Word)
    requires !TopSet(ValueIn(instr, LI_OPERAND), 24)
    ensures Times4(ValueIn(instr, LI_OPERAND)) == LongDisplacement(instr)
  {
  }

  lemma LongDisplacementAgrees(instr: Word)
    ensures Displacement(ValueIn(instr, LI_OPERAND), 24) == LongDisplacement(instr)
  {
    hide ValueIn, TopSet, Times4, Union, Complement, Ones, LongDisplacement, SignExtend, Fits, HighClear;
    ValueFits(instr, LI_OPERAND);
    if TopSet(ValueIn(instr, LI_OPERAND), 24) {
      SignExtendSet(ValueIn(instr, LI_OPERAND), 24);
      LongSet(instr);
    } else {
      SignExtendClear(ValueIn(instr, LI_OPERAND), 24);
      LongClear(instr);
    }
  }

  lemma ValueFits(instr: Word, o: Operand)
    requires ValidOperand(o)
    ensures Fits(ValueIn(instr, o), o.bits)
  {
    ExtractFits(instr, o.bits, o.shift);
  }

  lemma FlagBitsAgree(instr: Word)
    ensures ValueIn(instr, AA_OPERAND) != 0 <==> AbsoluteAddress(instr)
    ensures ValueIn(instr, LK_OPERAND) != 0 <==> LinkBit(instr)
  {
  }

  lemma CrBitAgrees(instr: Word, cr: Word)
    ensures Masked(cr, CrMask(ValueIn(instr, BI_OPERAND))) != 0 <==> CRBit(instr, cr)
  {
  }

  /** The switch on BO decides as the architecture does, or not at all if a z bit is set. */
  lemma DecisionAgrees(instr: Word, crSet: bool, ctr: Word)
    ensures Decision(ValueIn(instr, BO_OPERAND), crSet, ctr)
       <==> ReservedBitsClear(instr) && CountOk(instr, ctr) && (BO(instr, 0) || (crSet == BO(instr, 1)))
  {
  }

  /** The opcode that the search finds tells the branch form. */
  lemma FormOfOpcode(opcode: Word, mask: Word, instr: Word)
    requires Masked(instr, mask) == opcode
    ensures mask == B_MASK && IsBc(opcode) ==> FormOf(instr) == Conditional
    ensures mask == B_MASK && IsB(opcode) ==> FormOf(instr) == Unconditional
    ensures mask == X_MASK && IsBcctr(opcode) ==> FormOf(instr) == ToCount
    ensures mask == X_MASK && IsBclr(opcode) ==> FormOf(instr) == ToLink
  {
  }

  /** Every branch instruction matches one of the twelve opcodes. */
  lemma OpcodeOfForm(instr: Word)
    ensures FormOf(instr) == Conditional ==> IsBc(Masked(instr, B_MASK))
    ensures FormOf(instr) == Unconditional ==> IsB(Masked(instr, B_MASK))
    ensures FormOf(instr) == ToCount ==> IsBcctr(Masked(instr, X_MASK))
    ensures FormOf(instr) == ToLink ==> IsBclr(Masked(instr, X_MASK))
  {
  }

  /** An entry with a branch opcode is the entry listed for it, so it has that entry's mask. */
  lemma ListedMask(t: Tables, instr: Word, i: nat, mask: Word)
    requires SearchOrdered(t.opcodes)
    requires i < |t.opcodes| && Matches(instr, t.opcodes[i])
    requires HasOpcode(t, t.opcodes[i].opcode, mask) && Masked(t.opcodes[i].opcode, mask) == t.opcodes[i].opcode
    ensures t.opcodes[i].mask == mask
  {
    hide Less, Masked, Compare;
    var op := t.opcodes[i];
    var j :| 0 <= j < |t.opcodes| && t.opcodes[j].opcode == op.opcode && t.opcodes[j].mask == mask;
    CompareIsValueCompare(instr, op);
    MaskedAgain(instr, op.mask);
    CompareIsValueCompare(op.opcode, op);
    CompareIsValueCompare(op.opcode, t.opcodes[j]);
    ProbeIsLinear(t.opcodes, op.opcode);
  }

  lemma MaskedAgain(w: Word, mask: Word)
    ensures Masked(Masked(w, mask), mask) == Masked(w, mask)
  {
  }

  lemma BranchOpcodeInMask(opcode: Word)
    ensures IsBc(opcode) || IsB(opcode) ==> Masked(opcode, B_MASK) == opcode
    ensures IsBcctr(opcode) || IsBclr(opcode) ==> Masked(opcode, X_MASK) == opcode
  {
  }

  lemma FoundBranchMask(t: Tables, instr: Word, i: nat)
    requires SearchOrdered(t.opcodes) && HasBranches(t)
    requires i < |t.opcodes| && Matches(instr, t.opcodes[i])
    ensures BranchMask(t.opcodes[i])
  {
    hide Less, Masked, Compare, SearchOrdered, Matches;
    var op := t.opcodes[i];
    BranchOpcodeInMask(op.opcode);
    if IsBc(op.opcode) || IsB(op.opcode) {
      ListedMask(t, instr, i, B_MASK);
    }
    if IsBcctr(op.opcode) || IsBclr(op.opcode) {
      ListedMask(t, instr, i, X_MASK);
    }
  }

  lemma FoundFormAgrees(t: Tables, instr: Word, i: nat)
    requires SearchOrdered(t.opcodes) && HasBranches(t)
    requires i < |t.opcodes| && Matches(instr, t.opcodes[i])
    ensures FormOf(instr) == Conditional <==> IsBc(t.opcodes[i].opcode)
    ensures FormOf(instr) == Unconditional <==> IsB(t.opcodes[i].opcode)
    ensures FormOf(instr) == ToCount <==> IsBcctr(t.opcodes[i].opcode)
    ensures FormOf(instr) == ToLink <==> IsBclr(t.opcodes[i].opcode)
  {
    hide FormOf, Less, Masked, SearchOrdered;
    var op := t.opcodes[i];
    CompareIsValueCompare(instr, op);
    FoundBranchMask(t, instr, i);
    FormOfOpcode(op.opcode, op.mask, instr);
    OpcodeOfForm(instr);
    if FormOf(instr) == Conditional || FormOf(instr) == Unconditional {
      MatchIsUnique(t, instr, i, Masked(instr, B_MASK), B_MASK);
    } else if FormOf(instr) == ToCount || FormOf(instr) == ToLink {
      MatchIsUnique(t, instr, i, Masked(instr, X_MASK), X_MASK);
    }
  }

  lemma MatchIsUnique(t: Tables, instr: Word, i: nat, opcode: Word, mask: Word)
    requires SearchOrdered(t.opcodes)
    requires i < |t.opcodes| && Matches(instr, t.opcodes[i])
    requires HasOpcode(t, opcode, mask) && Masked(instr, mask) == opcode
    ensures t.opcodes[i].opcode == opcode
  {
    hide Less, Masked, Compare;
    var j :| 0 <= j < |t.opcodes| && t.opcodes[j].opcode == opcode && t.opcodes[j].mask == mask;
    CompareIsValueCompare(instr, t.opcodes[j]);
    ProbeIsLinear(t.opcodes, instr);
  }

  /** The address in the register that a branch goes to, before its low bits are dropped. */
  function RawTarget(instr: Word, pc: Word, regs: Regs): Word
  {
    match FormOf(instr)
    case ToLink => regs.link
    case ToCount => regs.ctr
    case _ => Target(instr, pc, regs)
  }

  /**
   The branches that stepping follows: those that are taken, unless a z bit is set or a branch to
   the count register also decrements the register and finds the new count wrong.
   */
  predicate Follows(instr: Word, regs: Regs)
  {
    && Taken(instr, regs)
    && (FormOf(instr) == Unconditional || ReservedBitsClear(instr))
    && (FormOf(instr) == ToCount ==> CountOk(instr, regs.ctr))
  }

  predicate PredictedRight(b: Branch, instr: Word, pc: Word, regs: Regs)
  {
    && (b.taken <==> Follows(instr, regs))
    && (b.taken ==> b.target == RawTarget(instr, pc, regs))
    && (b.taken ==> (b.link <==> LinkBit(instr)))
  }

  /** The code's decision on a conditional branch, in the architecture's terms. */
  lemma DecisionIs(instr: Word, regs: Regs)
    ensures Decision(ValueIn(instr, BO_OPERAND), Masked(regs.ccr, CrMask(ValueIn(instr, BI_OPERAND))) != 0, regs.ctr)
       <==> ReservedBitsClear(instr) && CountOk(instr, regs.ctr) && ConditionOk(instr, regs.ccr)
  {
    hide Decision, ValueIn, Masked, CrMask, CRBit, BO, ReservedBitsClear, CountOk;
    CrBitAgrees(instr, regs.ccr);
    DecisionAgrees(instr, CRBit(instr, regs.ccr), regs.ctr);
  }

  lemma PredictedDisplacement(opcode: Word, instr: Word, pc: Word, regs: Regs)
    requires (IsBc(opcode) && FormOf(instr) == Conditional) || (IsB(opcode) && FormOf(instr) == Unconditional)
    ensures PredictedRight(Predicted(DecodedOf(opcode, instr, regs), pc, regs), instr, pc, regs)
  {
    hide FormOf, ValueIn, Displacement, Decision, CrMask, Masked, Plus, AbsoluteAddress, LinkBit, LongDisplacement,
      ShortDisplacement, ReservedBitsClear, IsBc, IsB, IsBcctr, IsBclr, CountOk, ConditionOk;
    OnlyOneKind(opcode);
    ShortDisplacementAgrees(instr);
    LongDisplacementAgrees(instr);
    FlagBitsAgree(instr);
    DecisionIs(instr, regs);
  }

  lemma PredictedRegister(opcode: Word, instr: Word, pc: Word, regs: Regs)
    requires (IsBcctr(opcode) && FormOf(instr) == ToCount) || (IsBclr(opcode) && FormOf(instr) == ToLink)
    ensures PredictedRight(Predicted(DecodedOf(opcode, instr, regs), pc, regs), instr, pc, regs)
  {
    hide FormOf, ValueIn, Displacement, Decision, CrMask, Masked, Plus, LinkBit, ReservedBitsClear, IsBc, IsB, IsBcctr,
      IsBclr, CountOk, ConditionOk;
    OnlyOneKind(opcode);
    FlagBitsAgree(instr);
    DecisionIs(instr, regs);
  }

  lemma PredictedIsTaken(t: Tables, instr: Word, i: nat, pc: Word, regs: Regs)
    requires SearchOrdered(t.opcodes) && HasBranches(t)
    requires i < |t.opcodes| && Matches(instr, t.opcodes[i])
    ensures PredictedRight(Predicted(DecodedOf(t.opcodes[i].opcode, instr, regs), pc, regs), instr, pc, regs)
  {
    hide FormOf, Matches, HasBranches, SearchOrdered, IsBc, IsB, IsBcctr, IsBclr, ValueIn, Displacement, Decision,
      CountOk, ConditionOk, Plus;
    var opcode := t.opcodes[i].opcode;
    FoundFormAgrees(t, instr, i);
    if IsBc(opcode) || IsB(opcode) {
      PredictedDisplacement(opcode, instr, pc, regs);
    } else if IsBcctr(opcode) || IsBclr(opcode) {
      PredictedRegister(opcode, instr, pc, regs);
    } else {
      assert FormOf(instr) == NoBranch;
    }
  }

  lemma OnlyOneKind(opcode: Word)
    ensures IsBc(opcode) ==> !IsB(opcode) && !IsBcctr(opcode) && !IsBclr(opcode)
    ensures IsB(opcode) ==> !IsBcctr(opcode) && !IsBclr(opcode)
    ensures IsBcctr(opcode) ==> !IsBclr(opcode)
  {
  }

  /** Where stepping stops, and where stepping over calls stops. */
  lemma StopAddresses(t: Tables, instr: Word, i: nat, pc: Word, regs: Regs)
    requires SearchOrdered(t.opcodes) && HasBranches(t)
    requires i < |t.opcodes| && Matches(instr, t.opcodes[i])
    ensures var b := Predicted(DecodedOf(t.opcodes[i].opcode, instr, regs), pc, regs);
            && StepAddress(b, pc) == (if Follows(instr, regs) then RawTarget(instr, pc, regs) else Plus(pc, 4))
            && NextAddress(b, pc) ==
               (if Follows(instr, regs) && !LinkBit(instr) then RawTarget(instr, pc, regs) else Plus(pc, 4))
  {
    hide Matches, HasBranches, SearchOrdered, Plus, Follows, RawTarget, Predicted, DecodedOf, LinkBit;
    PredictedIsTaken(t, instr, i, pc, regs);
  }

  /**
   For every instruction word: stepping predicts the architecture's next instruction address exactly
   when the branch is not taken, or stepping follows it and its register target is word-aligned, or
   stepping does not follow it and it happens to lead to the following instruction.
   */
  lemma StepAgreesWithArchitecture(t: Tables, instr: Word, i: nat, pc: Word, regs: Regs)
    requires SearchOrdered(t.opcodes) && HasBranches(t)
    requires i < |t.opcodes| && Matches(instr, t.opcodes[i])
    ensures var b := Predicted(DecodedOf(t.opcodes[i].opcode, instr, regs), pc, regs);
            StepAddress(b, pc) == NextInstructionAddress(instr, pc, regs) <==> StepAgrees(instr, pc, regs)
  {
    hide FormOf, Matches, HasBranches, SearchOrdered, Plus, Taken, Target, RawTarget, ReservedBitsClear, Predicted,
      DecodedOf, CountOk;
    StopAddresses(t, instr, i, pc, regs);
  }

  predicate StepAgrees(instr: Word, pc: Word, regs: Regs)
  {
    || !Taken(instr, regs)
    || (if Follows(instr, regs)
        then RawTarget(instr, pc, regs) == Target(instr, pc, regs)
        else Target(instr, pc, regs) == Plus(pc, 4))
  }

  lemma AlignedTargets(instr: Word, pc: Word, regs: Regs)
    ensures RawTarget(instr, pc, regs) == Target(instr, pc, regs) <==>
              && (FormOf(instr) == ToLink ==> regs.link & 3 == 0)
              && (FormOf(instr) == ToCount ==> regs.ctr & 3 == 0)
  {
    hide FormOf, DropLowBits;
    AlignedIsSame(regs.link);
    AlignedIsSame(regs.ctr);
  }

  lemma AlignedIsSame(w: Word)
    ensures w == DropLowBits(w) <==> w & 3 == 0
  {
  }

  /** Stepping over a call that is followed stops behind it; otherwise it is the same as stepping. */
  lemma StepOverStopsBehindCalls(t: Tables, instr: Word, i: nat, pc: Word, regs: Regs)
    requires SearchOrdered(t.opcodes) && HasBranches(t)
    requires i < |t.opcodes| && Matches(instr, t.opcodes[i])
    ensures var b := Predicted(DecodedOf(t.opcodes[i].opcode, instr, regs), pc, regs);
            NextAddress(b, pc) ==
              if Follows(instr, regs) && LinkBit(instr) then Plus(pc, 4) else StepAddress(b, pc)
  {
    hide Matches, HasBranches, SearchOrdered, Plus, Follows, RawTarget, Predicted, DecodedOf, LinkBit;
    StopAddresses(t, instr, i, pc, regs);
  }

  /**
   The disassembler and the stepper agree: the target printed for an I-form or B-form branch is
   the address stepped to when the branch is taken.  The table's hint must say "relative" just
   for the opcodes without the absolute-address bit.
   */
  lemma PrintedTargetIsSteppedTo(op: Opcode, instr: Word, pc: Word, regs: Regs)
    requires Matches(instr, op) && BranchMask(op)
    requires IsBc(op.opcode) || IsB(op.opcode)
    requires Relative(op) <==> !AbsoluteAddress(op.opcode)
    ensures var o := if IsBc(op.opcode) then BD_OPERAND else LI_OPERAND;
            var b := Predicted(DecodedOf(op.opcode, instr, regs), pc, regs);
            b.taken ==> TargetOf(instr, op, o, pc) == StepAddress(b, pc)
  {
    hide ValueIn, Displacement, Decision, CrMask, Masked, Plus, AbsoluteAddress, IsBc, IsB, IsBcctr, IsBclr,
      Relative, Less;
    CompareIsValueCompare(instr, op);
    OnlyOneKind(op.opcode);
    FlagBitsAgree(instr);
    AbsoluteBitInMask(instr);
  }

  lemma AbsoluteBitInMask(instr: Word)
    ensures AbsoluteAddress(Masked(instr, B_MASK)) <==> AbsoluteAddress(instr)
  {
  }
}
