/**
 The debugger's tables have the shape that disassembling, assembling and stepping rely on, so the
 results about any such tables hold of these ones outright.
 */
module PpcShapes {
  import opened Words
  import opened Opcodes
  import opened Operands
  import opened Disassembler
  import opened RoundTrip
  import Stepper
  import opened PpcTables

  // ---------------------------------------------------------------------------------
  // Operands

  /** The operand is in the table under its own number. */
  predicate Listed(operands: seq<Operand>, o: Operand)
  {
    1 <= o.field <= |operands| && operands[o.field - 1] == o
  }

  /** A printed operand other than an offset, and the bits that it occupies. */
  predicate Plain(o: Operand, m: Word)
  {
    ValidOperand(o) && KindOf(o) != Silent && KindOf(o) != Immediate(true) && MaskOf(o) == m
  }

  predicate Quiet(o: Operand)
  {
    ValidOperand(o) && KindOf(o) == Silent
  }

  predicate Offset(o: Operand, m: Word)
  {
    ValidOperand(o) && KindOf(o) == Immediate(true) && MaskOf(o) == m
  }

  lemma OperandsListed0()
    ensures Listed(OPERANDS, AA) && Listed(OPERANDS, BD) && Listed(OPERANDS, BI) && Listed(OPERANDS, BO)
    ensures Listed(OPERANDS, CRBD) && Listed(OPERANDS, CRBA) && Listed(OPERANDS, CRBB) && Listed(OPERANDS, CRM)
    ensures Listed(OPERANDS, D)
  {
  }

  lemma OperandsListed1()
    ensures Listed(OPERANDS, LI) && Listed(OPERANDS, LK) && Listed(OPERANDS, MB) && Listed(OPERANDS, ME)
    ensures Listed(OPERANDS, NB)
  {
  }

  lemma OperandsListed2()
    ensures Listed(OPERANDS, OE) && Listed(OPERANDS, RA) && Listed(OPERANDS, RB) && Listed(OPERANDS, RC)
    ensures Listed(OPERANDS, RD) && Listed(OPERANDS, RS) && Listed(OPERANDS, SH) && Listed(OPERANDS, SIMM)
    ensures Listed(OPERANDS, SR)
  {
  }

  lemma OperandsListed3()
    ensures Listed(OPERANDS, TO) && Listed(OPERANDS, UIMM) && Listed(OPERANDS, CRFD) && Listed(OPERANDS, CRFS)
    ensures Listed(OPERANDS, L) && Listed(OPERANDS, SPR) && Listed(OPERANDS, TBR) && Listed(OPERANDS, CR2)
  {
  }

  lemma PlainOperands0()
    ensures Plain(BD, 0x0000_fffc) && Plain(BI, 0x001f_0000) && Plain(BO, 0x03e0_0000)
    ensures Plain(CRBD, 0x03e0_0000) && Plain(CRBA, 0x001f_0000) && Plain(CRBB, 0x0000_f800)
    ensures Plain(CRM, 0x000f_f000) && Plain(LI, 0x03ff_fffc) && Plain(MB, 0x0000_07c0)
  {
  }

  lemma PlainOperands1()
    ensures Plain(ME, 0x0000_003e) && Plain(NB, 0x0000_f800) && Plain(RA, 0x001f_0000)
    ensures Plain(RB, 0x0000_f800) && Plain(RD, 0x03e0_0000) && Plain(RS, 0x03e0_0000)
    ensures Plain(SH, 0x0000_f800) && Plain(SIMM, 0x0000_ffff) && Plain(SR, 0x000f_0000)
  {
  }

  lemma PlainOperands2()
    ensures Plain(TO, 0x03e0_0000) && Plain(UIMM, 0x0000_ffff) && Plain(CRFD, 0x0380_0000)
    ensures Plain(CRFS, 0x001c_0000) && Plain(L, 0x0020_0000) && Plain(SPR, 0x001f_f800)
    ensures Plain(TBR, 0x001f_f800) && Plain(CR2, 0x0000_0000)
  {
  }

  lemma OtherOperands()
    ensures Offset(D, 0x0000_7fff) && KindOf(RA) == Register && KindOf(RD) == Register
    ensures Quiet(AA) && Quiet(LK) && Quiet(OE) && Quiet(RC)
  {
  }

  // ---------------------------------------------------------------------------------
  // Operand lists

  predicate Apart(ops: seq<Operand>, mask: Word)
    requires AllValid(ops)
  {
    && (forall i :: 0 <= i < |ops| ==> Masked(mask, MaskOf(ops[i])) == 0)
    && (forall i, j :: 0 <= i < j < |ops| ==> Masked(MaskOf(ops[i]), MaskOf(ops[j])) == 0)
  }

  /** Printed operands that share no bits with each other or the mask. */
  predicate PlainList(ops: seq<Operand>, mask: Word)
  {
    && |ops| <= 5
    && (forall i :: 0 <= i < |ops| ==>
          Listed(OPERANDS, ops[i]) && ValidOperand(ops[i]) && KindOf(ops[i]) != Silent && KindOf(ops[i]) != Immediate(true))
    && Apart(ops, mask)
  }

  /** The same with an offset before the last one, a register. */
  predicate OffsetList(ops: seq<Operand>, mask: Word)
  {
    && |ops| == 3
    && (forall i :: 0 <= i < 3 ==> Listed(OPERANDS, ops[i]) && ValidOperand(ops[i]) && KindOf(ops[i]) != Silent)
    && KindOf(ops[0]) != Immediate(true) && KindOf(ops[1]) == Immediate(true) && KindOf(ops[2]) == Register
    && Apart(ops, mask)
  }

  predicate QuietList(ops: seq<Operand>)
  {
    |ops| <= 2 && forall i :: 0 <= i < |ops| ==> Listed(OPERANDS, ops[i]) && Quiet(ops[i])
  }

  lemma PlainLists0()
    ensures PlainList(TO_RA_SIMM, D_MASK)
    ensures PlainList(RD_RA_SIMM, D_MASK)
    ensures PlainList(CRFD_L_RA_UIMM, D_MASK)
  {
    hide Listed, ValidOperand, KindOf, MaskOf;
    OperandsListed2();
    OperandsListed3();
    PlainOperands1();
    PlainOperands2();
  }

  lemma PlainLists1()
    ensures PlainList(CRFD_L_RA_SIMM, D_MASK)
    ensures PlainList(BO_BI_BD, B_MASK)
    ensures PlainList(NONE, SC_MASK)
  {
    hide Listed, ValidOperand, KindOf, MaskOf;
    OperandsListed0();
    OperandsListed2();
    OperandsListed3();
    PlainOperands0();
    PlainOperands1();
    PlainOperands2();
  }

  lemma PlainLists2()
    ensures PlainList([LI], B_MASK)
    ensures PlainList(CRFD_CRFS, X_MASK)
    ensures PlainList(BO_BI, X_MASK)
  {
    hide Listed, ValidOperand, KindOf, MaskOf;
    OperandsListed0();
    OperandsListed1();
    OperandsListed3();
    PlainOperands0();
    PlainOperands2();
  }

  lemma PlainLists3()
    ensures PlainList(CRBD_CRBA_CRBB, X_MASK)
    ensures PlainList(NONE, X_MASK)
    ensures PlainList(RA_RS_SH_MB_ME, M_MASK)
  {
    hide Listed, ValidOperand, KindOf, MaskOf;
    OperandsListed0();
    OperandsListed1();
    OperandsListed2();
    PlainOperands0();
    PlainOperands1();
  }

  lemma PlainLists4()
    ensures PlainList(RA_RS_RB_MB_ME, M_MASK)
    ensures PlainList(RA_RS_UIMM, D_MASK)
    ensures PlainList(CRFD_L_RA_RB, X_MASK)
  {
    hide Listed, ValidOperand, KindOf, MaskOf;
    OperandsListed1();
    OperandsListed2();
    OperandsListed3();
    PlainOperands0();
    PlainOperands1();
    PlainOperands2();
  }

  lemma PlainLists5()
    ensures PlainList(TO_RA_RB, X_MASK)
    ensures PlainList(RD_RA_RB, X_MASK)
    ensures PlainList([RD], X_MASK)
  {
    hide Listed, ValidOperand, KindOf, MaskOf;
    OperandsListed2();
    OperandsListed3();
    PlainOperands1();
    PlainOperands2();
  }

  lemma PlainLists6()
    ensures PlainList(RA_RS_RB, X_MASK)
    ensures PlainList(RA_RS, X_MASK)
    ensures PlainList(RA_RB, X_MASK)
  {
    hide Listed, ValidOperand, KindOf, MaskOf;
    OperandsListed2();
    PlainOperands1();
  }

  lemma PlainLists7()
    ensures PlainList(RD_RA, X_MASK)
    ensures PlainList(CRM_RS, X_MASK)
    ensures PlainList([RS], X_MASK)
  {
    hide Listed, ValidOperand, KindOf, MaskOf;
    OperandsListed0();
    OperandsListed2();
    PlainOperands0();
    PlainOperands1();
  }

  lemma PlainLists8()
    ensures PlainList(RS_RA_RB, X_MASK)
    ensures PlainList(SR_RS, X_MASK)
    ensures PlainList(RS_RB, X_MASK)
  {
    hide Listed, ValidOperand, KindOf, MaskOf;
    OperandsListed2();
    PlainOperands1();
  }

  lemma PlainLists9()
    ensures PlainList([RB], X_MASK)
    ensures PlainList(RD_SPR, X_MASK)
    ensures PlainList(RD_TBR, X_MASK)
  {
    hide Listed, ValidOperand, KindOf, MaskOf;
    OperandsListed2();
    OperandsListed3();
    PlainOperands1();
    PlainOperands2();
  }

  lemma PlainLists10()
    ensures PlainList(SPR_RS, X_MASK)
    ensures PlainList([CRFD], X_MASK)
    ensures PlainList(RD_SR, X_MASK)
  {
    hide Listed, ValidOperand, KindOf, MaskOf;
    OperandsListed2();
    OperandsListed3();
    PlainOperands1();
    PlainOperands2();
  }

  lemma PlainLists11()
    ensures PlainList(RD_RA_NB, X_MASK)
    ensures PlainList(RD_RB, X_MASK)
    ensures PlainList(RS_RA_NB, X_MASK)
  {
    hide Listed, ValidOperand, KindOf, MaskOf;
    OperandsListed1();
    OperandsListed2();
    PlainOperands1();
  }

  lemma PlainLists12()
    ensures PlainList(RA_RS_SH, X_MASK)
  {
    hide Listed, ValidOperand, KindOf, MaskOf;
    OperandsListed2();
    PlainOperands1();
  }

  lemma OffsetLists()
    ensures OffsetList(RD_D_RA, D_MASK)
    ensures OffsetList(RS_D_RA, D_MASK)
  {
    hide Listed, ValidOperand, KindOf, MaskOf;
    OperandsListed0();
    OperandsListed2();
    PlainOperands1();
    OtherOperands();
  }

  lemma QuietLists()
    ensures QuietList(NONE)
    ensures QuietList(AA_LK)
    ensures QuietList([LK])
    ensures QuietList([RC])
    ensures QuietList(OE_RC)
  {
    hide Listed, Quiet;
    OperandsListed0();
    OperandsListed1();
    OperandsListed2();
    OtherOperands();
  }

  // ---------------------------------------------------------------------------------
  // The shape of the rows

  predicate ShapedRow(r: Row)
  {
    && (PlainList(r.printed, r.mask) || (OffsetList(r.printed, r.mask) && r.silent == NONE))
    && QuietList(r.silent)
    && (r.printed == NONE ==> r.silent == NONE)
  }

  predicate BranchRow(r: Row)
  {
    && (Stepper.IsBc(r.opcode) ==> r.printed == BO_BI_BD && r.silent == AA_LK)
    && (Stepper.IsB(r.opcode) ==> r.printed == [LI] && r.silent == AA_LK)
    && (Stepper.IsBcctr(r.opcode) || Stepper.IsBclr(r.opcode) ==> r.printed == BO_BI && r.silent == [LK])
    && (Stepper.IsBc(r.opcode) || Stepper.IsB(r.opcode) ==>
          r.mask == B_MASK && (r.hint & H_RELATIVE != 0 <==> r.opcode & 2 == 0))
  }

  predicate ShapedRows(s: seq<Row>)
  {
    forall k :: 0 <= k < |s| ==> ShapedRow(s[k]) && BranchRow(s[k])
  }

  lemma AllLists()
    ensures PlainList(TO_RA_SIMM, D_MASK)
    ensures PlainList(RD_RA_SIMM, D_MASK)
    ensures PlainList(CRFD_L_RA_UIMM, D_MASK)
    ensures PlainList(CRFD_L_RA_SIMM, D_MASK)
    ensures PlainList(BO_BI_BD, B_MASK)
    ensures PlainList(NONE, SC_MASK)
    ensures PlainList([LI], B_MASK)
    ensures PlainList(CRFD_CRFS, X_MASK)
    ensures PlainList(BO_BI, X_MASK)
    ensures PlainList(CRBD_CRBA_CRBB, X_MASK)
    ensures PlainList(NONE, X_MASK)
    ensures PlainList(RA_RS_SH_MB_ME, M_MASK)
    ensures PlainList(RA_RS_RB_MB_ME, M_MASK)
    ensures PlainList(RA_RS_UIMM, D_MASK)
    ensures PlainList(CRFD_L_RA_RB, X_MASK)
    ensures PlainList(TO_RA_RB, X_MASK)
    ensures PlainList(RD_RA_RB, X_MASK)
    ensures PlainList([RD], X_MASK)
    ensures PlainList(RA_RS_RB, X_MASK)
    ensures PlainList(RA_RS, X_MASK)
    ensures PlainList(RA_RB, X_MASK)
    ensures PlainList(RD_RA, X_MASK)
    ensures PlainList(CRM_RS, X_MASK)
    ensures PlainList([RS], X_MASK)
    ensures PlainList(RS_RA_RB, X_MASK)
    ensures PlainList(SR_RS, X_MASK)
    ensures PlainList(RS_RB, X_MASK)
    ensures PlainList([RB], X_MASK)
    ensures PlainList(RD_SPR, X_MASK)
    ensures PlainList(RD_TBR, X_MASK)
    ensures PlainList(SPR_RS, X_MASK)
    ensures PlainList([CRFD], X_MASK)
    ensures PlainList(RD_SR, X_MASK)
    ensures PlainList(RD_RA_NB, X_MASK)
    ensures PlainList(RD_RB, X_MASK)
    ensures PlainList(RS_RA_NB, X_MASK)
    ensures PlainList(RA_RS_SH, X_MASK)
    ensures OffsetList(RD_D_RA, D_MASK)
    ensures OffsetList(RS_D_RA, D_MASK)
    ensures QuietList(NONE)
    ensures QuietList(AA_LK)
    ensures QuietList([LK])
    ensures QuietList([RC])
    ensures QuietList(OE_RC)
  {
    hide PlainList, OffsetList, QuietList;
    PlainLists0();
    PlainLists1();
    PlainLists2();
    PlainLists3();
    PlainLists4();
    PlainLists5();
    PlainLists6();
    PlainLists7();
    PlainLists8();
    PlainLists9();
    PlainLists10();
    PlainLists11();
    PlainLists12();
    OffsetLists();
    QuietLists();
  }

  lemma ShapedBlock0()
    ensures ShapedRows(BLOCK0)
  {
    hide PlainList, OffsetList, QuietList;
    AllLists();
  }

  lemma ShapedBlock1()
    ensures ShapedRows(BLOCK1)
  {
    hide PlainList, OffsetList, QuietList;
    AllLists();
  }

  lemma ShapedBlock2()
    ensures ShapedRows(BLOCK2)
  {
    hide PlainList, OffsetList, QuietList;
    AllLists();
  }

  lemma ShapedBlock3()
    ensures ShapedRows(BLOCK3)
  {
    hide PlainList, OffsetList, QuietList;
    AllLists();
  }

  lemma ShapedBlock4()
    ensures ShapedRows(BLOCK4)
  {
    hide PlainList, OffsetList, QuietList;
    AllLists();
  }

  lemma ShapedBlock5()
    ensures ShapedRows(BLOCK5)
  {
    hide PlainList, OffsetList, QuietList;
    AllLists();
  }

  lemma ShapedBlock6()
    ensures ShapedRows(BLOCK6)
  {
    hide PlainList, OffsetList, QuietList;
    AllLists();
  }

  lemma ShapedBlock7()
    ensures ShapedRows(BLOCK7)
  {
    hide PlainList, OffsetList, QuietList;
    AllLists();
  }

  lemma ShapedBlock8()
    ensures ShapedRows(BLOCK8)
  {
    hide PlainList, OffsetList, QuietList;
    AllLists();
  }

  lemma ShapedBlock9()
    ensures ShapedRows(BLOCK9)
  {
    hide PlainList, OffsetList, QuietList;
    AllLists();
  }

  lemma ShapedBlock10()
    ensures ShapedRows(BLOCK10)
  {
    hide PlainList, OffsetList, QuietList;
    AllLists();
  }

  lemma ShapedBlock11()
    ensures ShapedRows(BLOCK11)
  {
    hide PlainList, OffsetList, QuietList;
    AllLists();
  }

  lemma ShapedBlock12()
    ensures ShapedRows(BLOCK12)
  {
    hide PlainList, OffsetList, QuietList;
    AllLists();
  }

  lemma ShapedBlock13()
    ensures ShapedRows(BLOCK13)
  {
    hide PlainList, OffsetList, QuietList;
    AllLists();
  }

  lemma ShapedBlock14()
    ensures ShapedRows(BLOCK14)
  {
    hide PlainList, OffsetList, QuietList;
    AllLists();
  }

  lemma ShapedBlock15()
    ensures ShapedRows(BLOCK15)
  {
    hide PlainList, OffsetList, QuietList;
    AllLists();
  }

  lemma ShapedBlock16()
    ensures ShapedRows(BLOCK16)
  {
    hide PlainList, OffsetList, QuietList;
    AllLists();
  }

  lemma ShapedBlock17()
    ensures ShapedRows(BLOCK17)
  {
    hide PlainList, OffsetList, QuietList;
    AllLists();
  }

  lemma ShapedBlock18()
    ensures ShapedRows(BLOCK18)
  {
    hide PlainList, OffsetList, QuietList;
    AllLists();
  }

  lemma ShapedBlock19()
    ensures ShapedRows(BLOCK19)
  {
    hide PlainList, OffsetList, QuietList;
    AllLists();
  }

  lemma ShapedBlock20()
    ensures ShapedRows(BLOCK20)
  {
    hide PlainList, OffsetList, QuietList;
    AllLists();
  }

  lemma JoinShaped(a: seq<Row>, b: seq<Row>)
    requires ShapedRows(a) && ShapedRows(b)
    ensures ShapedRows(a + b)
  {
    hide ShapedRow, BranchRow;
  }

  lemma ShapedGroup0()
    ensures ShapedRows(Group0())
  {
    hide ShapedRows;
    ShapedBlock0();
    ShapedBlock1();
    ShapedBlock2();
    ShapedBlock3();
    JoinShaped(BLOCK0, BLOCK1);
    JoinShaped(BLOCK0 + BLOCK1, BLOCK2);
    JoinShaped(BLOCK0 + BLOCK1 + BLOCK2, BLOCK3);
  }

  lemma ShapedGroup1()
    ensures ShapedRows(Group1())
  {
    hide ShapedRows;
    ShapedBlock4();
    ShapedBlock5();
    ShapedBlock6();
    ShapedBlock7();
    JoinShaped(BLOCK4, BLOCK5);
    JoinShaped(BLOCK4 + BLOCK5, BLOCK6);
    JoinShaped(BLOCK4 + BLOCK5 + BLOCK6, BLOCK7);
  }

  lemma ShapedGroup2()
    ensures ShapedRows(Group2())
  {
    hide ShapedRows;
    ShapedBlock8();
    ShapedBlock9();
    ShapedBlock10();
    ShapedBlock11();
    JoinShaped(BLOCK8, BLOCK9);
    JoinShaped(BLOCK8 + BLOCK9, BLOCK10);
    JoinShaped(BLOCK8 + BLOCK9 + BLOCK10, BLOCK11);
  }

  lemma ShapedGroup3()
    ensures ShapedRows(Group3())
  {
    hide ShapedRows;
    ShapedBlock12();
    ShapedBlock13();
    ShapedBlock14();
    ShapedBlock15();
    JoinShaped(BLOCK12, BLOCK13);
    JoinShaped(BLOCK12 + BLOCK13, BLOCK14);
    JoinShaped(BLOCK12 + BLOCK13 + BLOCK14, BLOCK15);
  }

  lemma ShapedGroup4()
    ensures ShapedRows(Group4())
  {
    hide ShapedRows;
    ShapedBlock16();
    ShapedBlock17();
    ShapedBlock18();
    ShapedBlock19();
    ShapedBlock20();
    JoinShaped(BLOCK16, BLOCK17);
    JoinShaped(BLOCK16 + BLOCK17, BLOCK18);
    JoinShaped(BLOCK16 + BLOCK17 + BLOCK18, BLOCK19);
    JoinShaped(BLOCK16 + BLOCK17 + BLOCK18 + BLOCK19, BLOCK20);
  }

  lemma ShapedTable()
    ensures ShapedRows(AllRows())
  {
    hide ShapedRows, Group0, Group1, Group2, Group3, Group4;
    ShapedGroup0();
    ShapedGroup1();
    ShapedGroup2();
    ShapedGroup3();
    ShapedGroup4();
    JoinShaped(Group0(), Group1());
    JoinShaped(Group0() + Group1(), Group2());
    JoinShaped(Group0() + Group1() + Group2(), Group3());
    JoinShaped(Group0() + Group1() + Group2() + Group3(), Group4());
  }

  lemma DisjointUnion(a: Word, b: Word, m: Word)
    requires Masked(a, m) == 0 && Masked(b, m) == 0
    ensures Masked(Union(a, b), m) == 0
  {
  }

  lemma {:induction false} ApartIsSeparate(ops: seq<Operand>, taken: Word)
    requires AllValid(ops) && Apart(ops, taken)
    ensures Separate(ops, taken)
    decreases |ops|
  {
    hide Masked, Union, MaskOf, ValidOperand;
    if ops != [] {
      var m, rest := MaskOf(ops[0]), ops[1..];
      forall i | 0 <= i < |rest|
        ensures Masked(Union(taken, m), MaskOf(rest[i])) == 0
      {
        DisjointUnion(taken, m, MaskOf(rest[i]));
      }
      ApartIsSeparate(rest, Union(taken, m));
    }
  }

  lemma {:induction false} VisibleOf(t: Tables, op: Opcode, ops: seq<Operand>, k: nat)
    requires ValidFields(t.operands, op.fields) && |ops| <= |op.fields| && k <= |op.fields|
    requires forall i :: 0 <= i < |ops| ==> At(t, op, i) == ops[i] && KindOf(ops[i]) != Silent
    requires forall i :: |ops| <= i < |op.fields| ==> KindAt(t, op, i) == Silent
    ensures Visible(t, op, k) == if k < |ops| then ops[k..] else []
    decreases |op.fields| - k
  {
    hide KindOf, ValidOperand, ValidFields, At;
    if k < |op.fields| {
      VisibleOf(t, op, ops, k + 1);
      if k < |ops| {
        assert ops[k..] == [ops[k]] + ops[k + 1..];
      }
    }
  }

  /** Each number in the opcode's operand list leads back to the operand. */
  lemma FieldsOf(t: Tables, op: Opcode, printed: seq<Operand>, silent: seq<Operand>)
    requires op.fields == Ids(printed + silent) && |printed| <= 5 && |silent| <= 2
    requires forall i :: 0 <= i < |printed| ==> Listed(t.operands, printed[i]) && ValidOperand(printed[i])
    requires forall i :: 0 <= i < |silent| ==> Listed(t.operands, silent[i]) && Quiet(silent[i])
    ensures ValidFields(t.operands, op.fields)
    ensures forall i :: 0 <= i < |printed| ==> At(t, op, i) == printed[i]
    ensures forall i :: |printed| <= i < |op.fields| ==> KindAt(t, op, i) == Silent
  {
    hide KindOf, ValidOperand;
    var all := printed + silent;
    forall i | 0 <= i < |all|
      ensures Listed(t.operands, all[i]) && ValidOperand(all[i])
      ensures i >= |printed| ==> KindOf(all[i]) == Silent
    {
      if i >= |printed| {
        assert all[i] == silent[i - |printed|];
      }
    }
  }

  /** An opcode with printed operands, followed by silent ones. */
  lemma ShapeOf(t: Tables, op: Opcode, printed: seq<Operand>, silent: seq<Operand>)
    requires op.fields == Ids(printed + silent) && |printed| <= 5 && |silent| <= 2 && (printed == [] ==> silent == [])
    requires forall i :: 0 <= i < |printed| ==>
               Listed(t.operands, printed[i]) && ValidOperand(printed[i]) && KindOf(printed[i]) != Silent
    requires forall i :: 0 <= i < |silent| ==> Listed(t.operands, silent[i]) && Quiet(silent[i])
    requires forall i :: 0 <= i < |printed| && KindOf(printed[i]) == Immediate(true) ==>
               i + 2 == |printed| && silent == [] && KindOf(printed[i + 1]) == Register
    requires Apart(printed, op.mask)
    requires OpcodeInMask(op)
    requires ValidFields(t.operands, op.fields) ==> WellNamed(t, op)
    ensures WellFormedOpcode(t, op)
  {
    hide KindOf, ValidOperand, Apart, OpcodeInMask, WellNamed, Separate, Listed;
    FieldsOf(t, op, printed, silent);
    VisibleOf(t, op, printed, 0);
    ApartIsSeparate(printed, op.mask);
  }

  lemma RowIsWellFormed(t: Tables, r: Row)
    requires t.operands == OPERANDS && ShapedRow(r) && OpcodeInMask(OpcodeOf(r))
    requires ValidFields(t.operands, OpcodeOf(r).fields) ==> WellNamed(t, OpcodeOf(r))
    ensures WellFormedOpcode(t, OpcodeOf(r))
  {
    hide KindOf, ValidOperand, Apart, OpcodeInMask, WellNamed, WellFormedOpcode, Listed, Quiet;
    ShapeOf(t, OpcodeOf(r), r.printed, r.silent);
  }

  lemma PrintedAre(t: Tables, op: Opcode, printed: seq<Operand>, silent: seq<Operand>)
    requires op.fields == Ids(printed + silent) && |printed| <= 5 && |silent| <= 2
    requires forall i :: 0 <= i < |printed| ==>
               Listed(t.operands, printed[i]) && ValidOperand(printed[i]) && KindOf(printed[i]) != Silent
    requires forall i :: 0 <= i < |silent| ==> Listed(t.operands, silent[i]) && Quiet(silent[i])
    ensures ValidFields(t.operands, op.fields) && Visible(t, op, 0) == printed
  {
    hide KindOf, ValidOperand, Listed;
    FieldsOf(t, op, printed, silent);
    VisibleOf(t, op, printed, 0);
  }

  lemma FirstField(t: Tables, r: Row)
    requires t.operands == OPERANDS && r.printed == RD_RA
    ensures ValidFields(t.operands, OpcodeOf(r).fields) ==>
              OpcodeOf(r).fields != [] && At(t, OpcodeOf(r), 0) == RD
  {
    hide ValidOperand;
    OperandsListed2();
  }
}
