/**
 Single-stepping with the debugger's own tables.
 */
module PpcStepping {
  import opened Basics
  import opened Words
  import opened Opcodes
  import opened Operands
  import opened Disassembler
  import opened RoundTrip
  import opened Stepper
  import opened PpcTables
  import opened PpcDebugger
  import PpcShapes

  lemma TableHasBranches(t: Tables)
    requires t == PpcDebugTables()
    ensures HasBranches(t)
  {
    hide PpcDebugTables;
    InFirstGroup(t, 9);
    InFirstGroup(t, 10);
    InFirstGroup(t, 11);
    InFirstGroup(t, 12);
    InFirstGroup(t, 14);
    InFirstGroup(t, 15);
    InFirstGroup(t, 16);
    InFirstGroup(t, 17);
    InFirstGroup(t, 19);
    InFirstGroup(t, 20);
    InFirstGroup(t, 31);
    InFirstGroup(t, 32);
  }

  lemma ListedFields(r: Row)
    ensures var fields := OpcodeOf(r).fields;
            && |fields| == |r.printed| + |r.silent|
            && (forall k :: 0 <= k < |r.printed| ==> fields[k] == r.printed[k].field)
            && (forall k :: 0 <= k < |r.silent| ==> fields[|r.printed| + k] == r.silent[k].field)
  {
    assert forall k :: 0 <= k < |r.silent| ==> (r.printed + r.silent)[|r.printed| + k] == r.silent[k];
  }

  lemma RowHasBranchFields(r: Row)
    requires PpcShapes.BranchRow(r)
    ensures BranchFields(OpcodeOf(r))
  {
    hide IsBc, IsB, IsBcctr, IsBclr;
    ListedFields(r);
    var fields := OpcodeOf(r).fields;
    if IsBc(r.opcode) {
      assert fields[0] == O_BO && fields[1] == O_BI && fields[2] == O_BD && fields[3] == O_AA && fields[4] == O_LK;
    }
    if IsB(r.opcode) {
      assert fields[0] == O_LI && fields[1] == O_AA && fields[2] == O_LK;
    }
    if IsBcctr(r.opcode) || IsBclr(r.opcode) {
      assert fields[0] == O_BO && fields[1] == O_BI && fields[2] == O_LK;
    }
  }

  lemma BranchOperandsListed(t: Tables)
    requires t.operands == OPERANDS
    ensures BranchOperands(t.operands)
  {
  }

  lemma TableIsSteppable(t: Tables)
    requires t == PpcDebugTables()
    ensures Steppable(t)
  {
    hide AllRows, AllSprs, OpcodeOf, PpcShapes.ShapedRow, PpcShapes.BranchRow, BranchFields, BranchOperands, WellFormed,
      SearchOrdered;
    TablesAreWellFormed();
    BranchOperandsListed(t);
    forall i | 0 <= i < |t.opcodes|
      ensures BranchFields(t.opcodes[i])
    {
      RowOf(t, i);
      RowHasBranchFields(AllRows()[i]);
    }
  }

  /**
   Stepping with the debugger's own tables, for every instruction word and all registers.  It fails
   exactly on words that are no instructions.  Otherwise it stops at the target of a branch that it
   follows (behind it, for "next" on a call), and else at the following instruction; and that is the
   architecture's next instruction exactly when `StepAgrees`.
   */
  method DebuggerStep(t: Tables, fetch: Word -> Word, stepOver: bool, regs: Regs) returns (r: Option<Word>)
    requires t == PpcDebugTables()
    ensures r.None? <==> LinearFind(t.opcodes, fetch(ProgramCounter(regs))).None?
    ensures var pc := ProgramCounter(regs);
            var instr := fetch(pc);
            r.Some? ==>
              && r.value == (if Follows(instr, regs) && !(stepOver && LinkBit(instr)) then RawTarget(instr, pc, regs)
                             else Plus(pc, 4))
              && (!stepOver ==> (r.value == NextInstructionAddress(instr, pc, regs) <==> StepAgrees(instr, pc, regs)))
  {
    hide PpcDebugTables, BranchFields, BranchOperands, AllFieldsValid, HasBranches, SearchOrdered, WellFormed,
      Predicted, DecodedOf, Follows, RawTarget, Plus, ProgramCounter, NextInstructionAddress, StepAddress,
      NextAddress, StepAgrees, LinkBit;
    TableIsSteppable(t);
    TableHasBranches(t);
    TablesAreWellFormed();
    r := FindNextAddress(t, fetch, stepOver, regs);
    ghost var pc := ProgramCounter(regs);
    ProbeIsLinear(t.opcodes, fetch(pc));
    if r.Some? {
      var i := LinearFind(t.opcodes, fetch(pc)).value;
      StopAddresses(t, fetch(pc), i, pc, regs);
      StepAgreesWithArchitecture(t, fetch(pc), i, pc, regs);
    }
  }

  /** The target printed for a branch of the debugger's table is the one that stepping goes to. */
  lemma DebuggerPrintsTarget(t: Tables, i: nat, instr: Word, pc: Word, regs: Regs)
    requires t == PpcDebugTables() && i < |t.opcodes| && Matches(instr, t.opcodes[i])
    requires IsBc(t.opcodes[i].opcode) || IsB(t.opcodes[i].opcode)
    ensures var op := t.opcodes[i];
            var o := if IsBc(op.opcode) then BD_OPERAND else LI_OPERAND;
            var b := Predicted(DecodedOf(op.opcode, instr, regs), pc, regs);
            b.taken ==> TargetOf(instr, op, o, pc) == StepAddress(b, pc)
  {
    hide PpcDebugTables, AllRows, Matches, IsBc, IsB, IsBcctr, IsBclr, PpcShapes.ShapedRow, Predicted, DecodedOf,
      StepAddress, TargetOf;
    RowOf(t, i);
    OnlyOneKind(t.opcodes[i].opcode);
    PrintedTargetIsSteppedTo(t.opcodes[i], instr, pc, regs);
  }

  // ---------------------------------------------------------------------------------
  // Where stepping goes wrong

  const CLEARED := Regs(0, 0, 0, 0)

  /** `bc` with a z bit set branches always, but stepping stops at the following instruction. */
  lemma ZBitIsMissed(t: Tables)
    requires t == PpcDebugTables()
    ensures |t.opcodes| > 9 && Matches(0x4380_0010, t.opcodes[9])
    ensures var b := Predicted(DecodedOf(t.opcodes[9].opcode, 0x4380_0010, CLEARED), 0, CLEARED);
            StepAddress(b, 0) == 4 && NextInstructionAddress(0x4380_0010, 0, CLEARED) == 0x10
  {
    hide PpcDebugTables;
    InFirstGroup(t, 9);
  }

  /** `blr` with an unaligned link register: stepping does not drop the low bits. */
  lemma UnalignedLinkIsMissed(t: Tables)
    requires t == PpcDebugTables()
    ensures |t.opcodes| > 19 && Matches(0x4e80_0020, t.opcodes[19])
    ensures var regs := CLEARED.(link := 0x102);
            var b := Predicted(DecodedOf(t.opcodes[19].opcode, 0x4e80_0020, regs), 0, regs);
            StepAddress(b, 0) == 0x102 && NextInstructionAddress(0x4e80_0020, 0, regs) == 0x100
  {
    hide PpcDebugTables;
    InFirstGroup(t, 19);
  }
}
