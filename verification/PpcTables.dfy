/**
 The debugger's own tables: operands, opcodes in numeric order, and special-purpose registers.
 The opcode table is cut into blocks, because properties of a long literal are expensive to prove.
 */
module PpcTables {
  import opened Words
  import opened Opcodes
  import opened Operands
  import opened Disassembler

  const H_IMM_HIGH: bv8 := 0x2

  const AA := AA_OPERAND
  const BD := BD_OPERAND
  const BI := BI_OPERAND
  const BO := BO_OPERAND
  const CRBD := Operand(5, 5, 21, 0)
  const CRBA := Operand(6, 5, 16, 0)
  const CRBB := Operand(7, 5, 11, 0)
  const CRM := Operand(8, 8, 12, 0)
  const D := Operand(9, 15, 0, OH_OFFSET)
  const FRC := Operand(10, 5, 6, 0)
  const FRD := Operand(11, 5, 21, 0)
  const FRS := Operand(12, 5, 21, 0)
  const IMM := Operand(13, 4, 12, 0)
  const LI := LI_OPERAND
  const LK := LK_OPERAND
  const MB := Operand(16, 5, 6, 0)
  const ME := Operand(17, 5, 1, 0)
  const NB := Operand(18, 5, 11, 0)
  const OE := Operand(19, 1, 10, OH_SILENT)
  const RA := Operand(20, 5, 16, OH_REG)
  const RB := Operand(21, 5, 11, OH_REG)
  const RC := Operand(22, 1, 0, OH_SILENT)
  const RD := Operand(23, 5, 21, OH_REG)
  const RS := Operand(24, 5, 21, OH_REG)
  const SH := Operand(25, 5, 11, 0)
  const SIMM := Operand(26, 16, 0, 0)
  const SR := Operand(27, 4, 16, 0)
  const TO := Operand(28, 5, 21, 0)
  const UIMM := Operand(29, 16, 0, 0)
  const CRFD := Operand(30, 3, 23, 0)
  const CRFS := Operand(31, 3, 18, 0)
  const L := Operand(32, 1, 21, 0)
  const SPR := Operand(33, 10, 11, OH_SPR)
  const TBR := Operand(34, 10, 11, OH_TBR)
  const CR2 := Operand(35, 0, 0, OH_LITERAL)

  const OPERANDS0: seq<Operand> := [AA, BD, BI, BO, CRBD, CRBA, CRBB, CRM, D]
  const OPERANDS1: seq<Operand> := [FRC, FRD, FRS, IMM, LI, LK, MB, ME, NB]
  const OPERANDS2: seq<Operand> := [OE, RA, RB, RC, RD, RS, SH, SIMM, SR]
  const OPERANDS3: seq<Operand> := [TO, UIMM, CRFD, CRFS, L, SPR, TBR, CR2]

  const OPERANDS := OPERANDS0 + OPERANDS1 + OPERANDS2 + OPERANDS3

  /** An opcode with its printed and its silent operands. */
  datatype Row = Row(
    opcode: Word, mask: Word, printed: seq<Operand>, silent: seq<Operand>, name: string, hint: bv8,
    handler: bool := false)

  function Ids(ops: seq<Operand>): (ids: seq<nat>)
    ensures |ids| == |ops| && forall i :: 0 <= i < |ops| ==> ids[i] == ops[i].field
  {
    seq(|ops|, i requires 0 <= i < |ops| => ops[i].field)
  }

  function OpcodeOf(r: Row): Opcode
  {
    Opcode(r.opcode, r.mask, Ids(r.printed + r.silent), r.name, r.hint, r.handler)
  }

  // Operand lists, named after their operands.

  const TO_RA_SIMM: seq<Operand> := [TO, RA, SIMM]
  const NONE: seq<Operand> := []
  const RD_RA_SIMM: seq<Operand> := [RD, RA, SIMM]
  const CRFD_L_RA_UIMM: seq<Operand> := [CRFD, L, RA, UIMM]
  const CRFD_L_RA_SIMM: seq<Operand> := [CRFD, L, RA, SIMM]
  const BO_BI_BD: seq<Operand> := [BO, BI, BD]
  const AA_LK: seq<Operand> := [AA, LK]
  const CRFD_CRFS: seq<Operand> := [CRFD, CRFS]
  const BO_BI: seq<Operand> := [BO, BI]
  const CRBD_CRBA_CRBB: seq<Operand> := [CRBD, CRBA, CRBB]
  const RA_RS_SH_MB_ME: seq<Operand> := [RA, RS, SH, MB, ME]
  const RA_RS_RB_MB_ME: seq<Operand> := [RA, RS, RB, MB, ME]
  const RA_RS_UIMM: seq<Operand> := [RA, RS, UIMM]
  const CRFD_L_RA_RB: seq<Operand> := [CRFD, L, RA, RB]
  const TO_RA_RB: seq<Operand> := [TO, RA, RB]
  const RD_RA_RB: seq<Operand> := [RD, RA, RB]
  const OE_RC: seq<Operand> := [OE, RC]
  const RA_RS_RB: seq<Operand> := [RA, RS, RB]
  const RA_RS: seq<Operand> := [RA, RS]
  const RA_RB: seq<Operand> := [RA, RB]
  const RD_RA: seq<Operand> := [RD, RA]
  const CRM_RS: seq<Operand> := [CRM, RS]
  const RS_RA_RB: seq<Operand> := [RS, RA, RB]
  const SR_RS: seq<Operand> := [SR, RS]
  const RS_RB: seq<Operand> := [RS, RB]
  const RD_SPR: seq<Operand> := [RD, SPR]
  const RD_TBR: seq<Operand> := [RD, TBR]
  const SPR_RS: seq<Operand> := [SPR, RS]
  const RD_SR: seq<Operand> := [RD, SR]
  const RD_RA_NB: seq<Operand> := [RD, RA, NB]
  const RD_RB: seq<Operand> := [RD, RB]
  const RS_RA_NB: seq<Operand> := [RS, RA, NB]
  const RA_RS_SH: seq<Operand> := [RA, RS, SH]
  const RD_D_RA: seq<Operand> := [RD, D, RA]
  const RS_D_RA: seq<Operand> := [RS, D, RA]

  const BLOCK0: seq<Row> := [
    Row(0x0c00_0000, D_MASK, TO_RA_SIMM, NONE, "twi", 0),
    Row(0x1c00_0000, D_MASK, RD_RA_SIMM, NONE, "mulli", 0),
    Row(0x2000_0000, D_MASK, RD_RA_SIMM, NONE, "subfic", 0),
    Row(0x2800_0000, D_MASK, CRFD_L_RA_UIMM, NONE, "cmpli", 0),
    Row(0x2c00_0000, D_MASK, CRFD_L_RA_SIMM, NONE, "cmpi", 0),
    Row(0x3000_0000, D_MASK, RD_RA_SIMM, NONE, "addic", 0),
    Row(0x3400_0000, D_MASK, RD_RA_SIMM, NONE, "addic.", 0),
    Row(0x3800_0000, D_MASK, RD_RA_SIMM, NONE, "addi", H_RA0_IS_0),
    Row(0x3c00_0000, D_MASK, RD_RA_SIMM, NONE, "addis", H_RA0_IS_0 | H_IMM_HIGH),
    Row(0x4000_0000, B_MASK, BO_BI_BD, AA_LK, "bc", H_RELATIVE, true)
  ]

  const BLOCK1: seq<Row> := [
    Row(0x4000_0001, B_MASK, BO_BI_BD, AA_LK, "bcl", H_RELATIVE),
    Row(0x4000_0002, B_MASK, BO_BI_BD, AA_LK, "bca", 0),
    Row(0x4000_0003, B_MASK, BO_BI_BD, AA_LK, "bcla", 0),
    Row(0x4400_0002, SC_MASK, NONE, NONE, "sc", 0),
    Row(0x4800_0000, B_MASK, [LI], AA_LK, "b", H_RELATIVE),
    Row(0x4800_0001, B_MASK, [LI], AA_LK, "bl", H_RELATIVE),
    Row(0x4800_0002, B_MASK, [LI], AA_LK, "ba", 0),
    Row(0x4800_0003, B_MASK, [LI], AA_LK, "bla", 0),
    Row(0x4c00_0000, X_MASK, CRFD_CRFS, NONE, "mcrf", 0),
    Row(0x4c00_0020, X_MASK, BO_BI, [LK], "bclr", 0)
  ]

  const BLOCK2: seq<Row> := [
    Row(0x4c00_0021, X_MASK, BO_BI, [LK], "bclrl", 0),
    Row(0x4c00_0042, X_MASK, CRBD_CRBA_CRBB, NONE, "crnor", 0),
    Row(0x4c00_0064, X_MASK, NONE, NONE, "rfi", 0),
    Row(0x4c00_0102, X_MASK, CRBD_CRBA_CRBB, NONE, "crandc", 0),
    Row(0x4c00_012c, X_MASK, NONE, NONE, "isync", 0),
    Row(0x4c00_0182, X_MASK, CRBD_CRBA_CRBB, NONE, "crxor", 0),
    Row(0x4c00_01c2, X_MASK, CRBD_CRBA_CRBB, NONE, "crnand", 0),
    Row(0x4c00_0202, X_MASK, CRBD_CRBA_CRBB, NONE, "crand", 0),
    Row(0x4c00_0242, X_MASK, CRBD_CRBA_CRBB, NONE, "creqv", 0),
    Row(0x4c00_0342, X_MASK, CRBD_CRBA_CRBB, NONE, "crorc", 0)
  ]

  const BLOCK3: seq<Row> := [
    Row(0x4c00_0382, X_MASK, CRBD_CRBA_CRBB, NONE, "cror", 0),
    Row(0x4c00_0420, X_MASK, BO_BI, [LK], "bcctr", 0),
    Row(0x4c00_0421, X_MASK, BO_BI, [LK], "bcctrl", 0),
    Row(0x5000_0000, M_MASK, RA_RS_SH_MB_ME, [RC], "rlwimi", 0),
    Row(0x5000_0001, M_MASK, RA_RS_SH_MB_ME, [RC], "rlwimi.", 0),
    Row(0x5400_0000, M_MASK, RA_RS_SH_MB_ME, [RC], "rlwinm", 0),
    Row(0x5400_0001, M_MASK, RA_RS_SH_MB_ME, [RC], "rlwinm.", 0),
    Row(0x5c00_0000, M_MASK, RA_RS_RB_MB_ME, [RC], "rlwnm", 0),
    Row(0x5c00_0001, M_MASK, RA_RS_RB_MB_ME, [RC], "rlwnm.", 0),
    Row(0x6000_0000, D_MASK, RA_RS_UIMM, NONE, "ori", 0)
  ]

  const BLOCK4: seq<Row> := [
    Row(0x6400_0000, D_MASK, RA_RS_UIMM, NONE, "oris", H_IMM_HIGH),
    Row(0x6800_0000, D_MASK, RA_RS_UIMM, NONE, "xori", 0),
    Row(0x6c00_0000, D_MASK, RA_RS_UIMM, NONE, "xoris", H_IMM_HIGH),
    Row(0x7000_0000, D_MASK, RA_RS_UIMM, NONE, "andi.", 0),
    Row(0x7400_0000, D_MASK, RA_RS_UIMM, NONE, "andis.", H_IMM_HIGH),
    Row(0x7c00_0000, X_MASK, CRFD_L_RA_RB, NONE, "cmp", 0),
    Row(0x7c00_0008, X_MASK, TO_RA_RB, NONE, "tw", 0),
    Row(0x7c00_0010, X_MASK, RD_RA_RB, OE_RC, "subfc", 0),
    Row(0x7c00_0011, X_MASK, RD_RA_RB, OE_RC, "subfc.", 0),
    Row(0x7c00_0014, X_MASK, RD_RA_RB, OE_RC, "addc", 0)
  ]

  const BLOCK5: seq<Row> := [
    Row(0x7c00_0015, X_MASK, RD_RA_RB, OE_RC, "addc.", 0),
    Row(0x7c00_0016, X_MASK, RD_RA_RB, [RC], "mulhwu", 0),
    Row(0x7c00_0017, X_MASK, RD_RA_RB, [RC], "mulhwu.", 0),
    Row(0x7c00_0026, X_MASK, [RD], NONE, "mfcr", 0),
    Row(0x7c00_0028, X_MASK, RD_RA_RB, NONE, "lwarx", H_RA0_IS_0),
    Row(0x7c00_002e, X_MASK, RD_RA_RB, NONE, "lwzx", H_RA0_IS_0),
    Row(0x7c00_0030, X_MASK, RA_RS_RB, [RC], "slw", 0),
    Row(0x7c00_0031, X_MASK, RA_RS_RB, [RC], "slw.", 0),
    Row(0x7c00_0034, X_MASK, RA_RS, [RC], "cntlzw", 0),
    Row(0x7c00_0035, X_MASK, RA_RS, [RC], "cntlzw.", 0)
  ]

  const BLOCK6: seq<Row> := [
    Row(0x7c00_0038, X_MASK, RA_RS_RB, [RC], "and", 0),
    Row(0x7c00_0039, X_MASK, RA_RS_RB, [RC], "and.", 0),
    Row(0x7c00_0040, X_MASK, CRFD_L_RA_RB, NONE, "cmpl", 0),
    Row(0x7c00_0050, X_MASK, RD_RA_RB, OE_RC, "subf", 0),
    Row(0x7c00_0051, X_MASK, RD_RA_RB, OE_RC, "subf.", 0),
    Row(0x7c00_006c, X_MASK, RA_RB, NONE, "dcbst", H_RA0_IS_0),
    Row(0x7c00_006e, X_MASK, RD_RA_RB, NONE, "lwzux", 0),
    Row(0x7c00_0078, X_MASK, RA_RS_RB, [RC], "andc", 0),
    Row(0x7c00_0079, X_MASK, RA_RS_RB, [RC], "andc.", 0),
    Row(0x7c00_0096, X_MASK, RD_RA_RB, [RC], "mulhw", 0)
  ]

  const BLOCK7: seq<Row> := [
    Row(0x7c00_0097, X_MASK, RD_RA_RB, [RC], "mulhw.", 0),
    Row(0x7c00_00a6, X_MASK, [RD], NONE, "mfmsr", 0),
    Row(0x7c00_00ac, X_MASK, RA_RB, NONE, "dcbf", H_RA0_IS_0),
    Row(0x7c00_00ae, X_MASK, RD_RA_RB, NONE, "lbzx", H_RA0_IS_0),
    Row(0x7c00_00d0, X_MASK, RD_RA, OE_RC, "neg", 0),
    Row(0x7c00_00d1, X_MASK, RD_RA, OE_RC, "neg.", 0),
    Row(0x7c00_00ee, X_MASK, RD_RA_RB, NONE, "lbzux", 0),
    Row(0x7c00_00f8, X_MASK, RA_RS_RB, [RC], "nor", 0),
    Row(0x7c00_00f9, X_MASK, RA_RS_RB, [RC], "nor.", 0),
    Row(0x7c00_0110, X_MASK, RD_RA_RB, OE_RC, "subfe", 0)
  ]

  const BLOCK8: seq<Row> := [
    Row(0x7c00_0111, X_MASK, RD_RA_RB, OE_RC, "subfe.", 0),
    Row(0x7c00_0114, X_MASK, RD_RA_RB, OE_RC, "adde", 0),
    Row(0x7c00_0115, X_MASK, RD_RA_RB, OE_RC, "adde.", 0),
    Row(0x7c00_0120, X_MASK, CRM_RS, NONE, "mtcrf", 0),
    Row(0x7c00_0124, X_MASK, [RS], NONE, "mtmsr", 0),
    Row(0x7c00_012d, X_MASK, RS_RA_RB, NONE, "stwcx.", 0),
    Row(0x7c00_012e, X_MASK, RS_RA_RB, NONE, "stwx", 0),
    Row(0x7c00_016e, X_MASK, RS_RA_RB, NONE, "stwux", 0),
    Row(0x7c00_0190, X_MASK, RD_RA, OE_RC, "subfze", 0),
    Row(0x7c00_0191, X_MASK, RD_RA, OE_RC, "subfze.", 0)
  ]

  const BLOCK9: seq<Row> := [
    Row(0x7c00_0194, X_MASK, RD_RA, OE_RC, "addze", 0),
    Row(0x7c00_0195, X_MASK, RD_RA, OE_RC, "addze.", 0),
    Row(0x7c00_01a4, X_MASK, SR_RS, NONE, "mtsr", 0),
    Row(0x7c00_01ae, X_MASK, RS_RA_RB, NONE, "stbx", H_RA0_IS_0),
    Row(0x7c00_01d0, X_MASK, RD_RA, OE_RC, "subfme", 0),
    Row(0x7c00_01d1, X_MASK, RD_RA, OE_RC, "subfme.", 0),
    Row(0x7c00_01d4, X_MASK, RD_RA, OE_RC, "addme", 0),
    Row(0x7c00_01d5, X_MASK, RD_RA, OE_RC, "addme.", 0),
    Row(0x7c00_01d6, X_MASK, RD_RA_RB, OE_RC, "mullw", 0),
    Row(0x7c00_01d7, X_MASK, RD_RA_RB, OE_RC, "mullw.", 0)
  ]

  const BLOCK10: seq<Row> := [
    Row(0x7c00_01e4, X_MASK, RS_RB, NONE, "mtsrin", 0),
    Row(0x7c00_01ec, X_MASK, RA_RB, NONE, "dcbtst", H_RA0_IS_0),
    Row(0x7c00_01ee, X_MASK, RS_RA_RB, NONE, "stbux", 0),
    Row(0x7c00_0214, X_MASK, RD_RA_RB, OE_RC, "add", 0),
    Row(0x7c00_0215, X_MASK, RD_RA_RB, OE_RC, "add.", 0),
    Row(0x7c00_022c, X_MASK, RA_RB, NONE, "dcbt", H_RA0_IS_0),
    Row(0x7c00_022e, X_MASK, RD_RA_RB, NONE, "lhzx", H_RA0_IS_0),
    Row(0x7c00_0238, X_MASK, RA_RS_RB, [RC], "eqv", 0),
    Row(0x7c00_0239, X_MASK, RA_RS_RB, [RC], "eqv.", 0),
    Row(0x7c00_0264, X_MASK, [RB], NONE, "tlbie", 0)
  ]

  const BLOCK11: seq<Row> := [
    Row(0x7c00_026c, X_MASK, RD_RA_RB, NONE, "eciwx", H_RA0_IS_0),
    Row(0x7c00_026e, X_MASK, RD_RA_RB, NONE, "lhzux", 0),
    Row(0x7c00_0278, X_MASK, RA_RS_RB, [RC], "xor", 0),
    Row(0x7c00_0279, X_MASK, RA_RS_RB, [RC], "xor.", 0),
    Row(0x7c00_02a6, X_MASK, RD_SPR, NONE, "mfspr", 0),
    Row(0x7c00_02ae, X_MASK, RD_RA_RB, NONE, "lhax", H_RA0_IS_0),
    Row(0x7c00_02e4, X_MASK, NONE, NONE, "tlbia", 0),
    Row(0x7c00_02e6, X_MASK, RD_TBR, NONE, "mftb", 0),
    Row(0x7c00_02ee, X_MASK, RD_RA_RB, NONE, "lhaux", 0),
    Row(0x7c00_032e, X_MASK, RS_RA_RB, NONE, "sthx", H_RA0_IS_0)
  ]

  const BLOCK12: seq<Row> := [
    Row(0x7c00_0338, X_MASK, RA_RS_RB, [RC], "orc", 0),
    Row(0x7c00_0339, X_MASK, RA_RS_RB, [RC], "orc.", 0),
    Row(0x7c00_036c, X_MASK, RS_RA_RB, NONE, "ecowx", H_RA0_IS_0),
    Row(0x7c00_036e, X_MASK, RS_RA_RB, NONE, "sthux", 0),
    Row(0x7c00_0378, X_MASK, RA_RS_RB, [RC], "or", 0),
    Row(0x7c00_0379, X_MASK, RA_RS_RB, [RC], "or.", 0),
    Row(0x7c00_0396, X_MASK, RD_RA_RB, OE_RC, "divwu", 0),
    Row(0x7c00_0397, X_MASK, RD_RA_RB, OE_RC, "divwu.", 0),
    Row(0x7c00_03a6, X_MASK, SPR_RS, NONE, "mtspr", 0),
    Row(0x7c00_03ac, X_MASK, RA_RB, NONE, "dcbi", H_RA0_IS_0)
  ]

  const BLOCK13: seq<Row> := [
    Row(0x7c00_03b8, X_MASK, RA_RS_RB, [RC], "nand", 0),
    Row(0x7c00_03b9, X_MASK, RA_RS_RB, [RC], "nand.", 0),
    Row(0x7c00_03d6, X_MASK, RD_RA_RB, OE_RC, "divw", 0),
    Row(0x7c00_03d7, X_MASK, RD_RA_RB, OE_RC, "divw.", 0),
    Row(0x7c00_0400, X_MASK, [CRFD], NONE, "mcrxr", 0),
    Row(0x7c00_0410, X_MASK, RD_RA_RB, OE_RC, "subfco", 0),
    Row(0x7c00_0411, X_MASK, RD_RA_RB, OE_RC, "subfco.", 0),
    Row(0x7c00_0414, X_MASK, RD_RA_RB, OE_RC, "addco", 0),
    Row(0x7c00_0415, X_MASK, RD_RA_RB, OE_RC, "addco.", 0),
    Row(0x7c00_042a, X_MASK, RD_RA_RB, NONE, "lswx", H_RA0_IS_0)
  ]

  const BLOCK14: seq<Row> := [
    Row(0x7c00_042c, X_MASK, RD_RA_RB, NONE, "lwbrx", H_RA0_IS_0),
    Row(0x7c00_0430, X_MASK, RA_RS_RB, [RC], "srw", 0),
    Row(0x7c00_0431, X_MASK, RA_RS_RB, [RC], "srw.", 0),
    Row(0x7c00_0450, X_MASK, RD_RA_RB, OE_RC, "subfo", 0),
    Row(0x7c00_0451, X_MASK, RD_RA_RB, OE_RC, "subfo.", 0),
    Row(0x7c00_046c, X_MASK, NONE, NONE, "tlbsync", 0),
    Row(0x7c00_04a6, X_MASK, RD_SR, NONE, "mfsr", 0),
    Row(0x7c00_04aa, X_MASK, RD_RA_NB, NONE, "lswi", H_RA0_IS_0),
    Row(0x7c00_04ac, X_MASK, NONE, NONE, "sync", 0),
    Row(0x7c00_04d0, X_MASK, RD_RA, OE_RC, "nego", 0)
  ]

  const BLOCK15: seq<Row> := [
    Row(0x7c00_04d1, X_MASK, RD_RA, OE_RC, "nego.", 0),
    Row(0x7c00_0510, X_MASK, RD_RA_RB, OE_RC, "subfeo", 0),
    Row(0x7c00_0511, X_MASK, RD_RA_RB, OE_RC, "subfeo.", 0),
    Row(0x7c00_0514, X_MASK, RD_RA_RB, OE_RC, "addeo", 0),
    Row(0x7c00_0515, X_MASK, RD_RA_RB, OE_RC, "addeo.", 0),
    Row(0x7c00_0526, X_MASK, RD_RB, NONE, "mfsrin", 0),
    Row(0x7c00_052a, X_MASK, RS_RA_RB, NONE, "stswx", H_RA0_IS_0),
    Row(0x7c00_052c, X_MASK, RS_RA_RB, NONE, "stwbrx", H_RA0_IS_0),
    Row(0x7c00_0590, X_MASK, RD_RA, OE_RC, "subfzeo", 0),
    Row(0x7c00_0591, X_MASK, RD_RA, OE_RC, "subfzeo.", 0)
  ]

  const BLOCK16: seq<Row> := [
    Row(0x7c00_0594, X_MASK, RD_RA, OE_RC, "addzeo", 0),
    Row(0x7c00_0595, X_MASK, RD_RA, OE_RC, "addzeo.", 0),
    Row(0x7c00_05aa, X_MASK, RS_RA_NB, NONE, "stswi", H_RA0_IS_0),
    Row(0x7c00_05d0, X_MASK, RD_RA, OE_RC, "subfmeo", 0),
    Row(0x7c00_05d1, X_MASK, RD_RA, OE_RC, "subfmeo.", 0),
    Row(0x7c00_05d4, X_MASK, RD_RA, OE_RC, "addmeo", 0),
    Row(0x7c00_05d5, X_MASK, RD_RA, OE_RC, "addmeo.", 0),
    Row(0x7c00_05d6, X_MASK, RD_RA_RB, OE_RC, "mullwo", 0),
    Row(0x7c00_05d7, X_MASK, RD_RA_RB, OE_RC, "mullwo.", 0),
    Row(0x7c00_0614, X_MASK, RD_RA_RB, OE_RC, "addo", 0)
  ]

  const BLOCK17: seq<Row> := [
    Row(0x7c00_0615, X_MASK, RD_RA_RB, OE_RC, "addo.", 0),
    Row(0x7c00_062c, X_MASK, RD_RA_RB, NONE, "lhbrx", H_RA0_IS_0),
    Row(0x7c00_0630, X_MASK, RA_RS_RB, [RC], "sraw", 0),
    Row(0x7c00_0631, X_MASK, RA_RS_RB, [RC], "sraw.", 0),
    Row(0x7c00_0670, X_MASK, RA_RS_SH, [RC], "srawi", 0),
    Row(0x7c00_0671, X_MASK, RA_RS_SH, [RC], "srawi.", 0),
    Row(0x7c00_06ac, X_MASK, NONE, NONE, "eieio", 0),
    Row(0x7c00_072c, X_MASK, RS_RA_RB, NONE, "sthbrx", H_RA0_IS_0),
    Row(0x7c00_0734, X_MASK, RA_RS, [RC], "extsh", 0),
    Row(0x7c00_0735, X_MASK, RA_RS, [RC], "extsh.", 0)
  ]

  const BLOCK18: seq<Row> := [
    Row(0x7c00_0774, X_MASK, RA_RS, [RC], "extsb", 0),
    Row(0x7c00_0775, X_MASK, RA_RS, [RC], "extsb.", 0),
    Row(0x7c00_0796, X_MASK, RD_RA_RB, OE_RC, "divwuo", 0),
    Row(0x7c00_0797, X_MASK, RD_RA_RB, OE_RC, "divwuo.", 0),
    Row(0x7c00_07a4, X_MASK, [RB], NONE, "tlbld", 0),
    Row(0x7c00_07ac, X_MASK, RA_RB, NONE, "icbi", H_RA0_IS_0),
    Row(0x7c00_07d6, X_MASK, RD_RA_RB, OE_RC, "divwo", 0),
    Row(0x7c00_07d7, X_MASK, RD_RA_RB, OE_RC, "divwo.", 0),
    Row(0x7c00_07e4, X_MASK, [RB], NONE, "tlbli", 0),
    Row(0x7c00_07ec, X_MASK, RA_RB, NONE, "dcbz", H_RA0_IS_0)
  ]

  const BLOCK19: seq<Row> := [
    Row(0x8000_0000, D_MASK, RD_D_RA, NONE, "lwz", H_RA0_IS_0),
    Row(0x8400_0000, D_MASK, RD_D_RA, NONE, "lwzu", 0),
    Row(0x8800_0000, D_MASK, RD_D_RA, NONE, "lbz", H_RA0_IS_0),
    Row(0x8c00_0000, D_MASK, RD_D_RA, NONE, "lbzu", 0),
    Row(0x9000_0000, D_MASK, RS_D_RA, NONE, "stw", H_RA0_IS_0),
    Row(0x9400_0000, D_MASK, RS_D_RA, NONE, "stwu", 0),
    Row(0x9800_0000, D_MASK, RS_D_RA, NONE, "stb", H_RA0_IS_0),
    Row(0x9c00_0000, D_MASK, RS_D_RA, NONE, "stbu", 0),
    Row(0xa000_0000, D_MASK, RD_D_RA, NONE, "lhz", H_RA0_IS_0),
    Row(0xa400_0000, D_MASK, RD_D_RA, NONE, "lhzu", 0)
  ]

  const BLOCK20: seq<Row> := [
    Row(0xa800_0000, D_MASK, RD_D_RA, NONE, "lha", H_RA0_IS_0),
    Row(0xac00_0000, D_MASK, RD_D_RA, NONE, "lhau", 0),
    Row(0xb000_0000, D_MASK, RS_D_RA, NONE, "sth", H_RA0_IS_0),
    Row(0xb400_0000, D_MASK, RS_D_RA, NONE, "sthu", 0),
    Row(0xb800_0000, D_MASK, RD_D_RA, NONE, "lmw", H_RA0_IS_0),
    Row(0xbc00_0000, D_MASK, RS_D_RA, NONE, "stmw", H_RA0_IS_0)
  ]

  function Group0(): seq<Row>
  {
    BLOCK0 + BLOCK1 + BLOCK2 + BLOCK3
  }

  function Group1(): seq<Row>
  {
    BLOCK4 + BLOCK5 + BLOCK6 + BLOCK7
  }

  function Group2(): seq<Row>
  {
    BLOCK8 + BLOCK9 + BLOCK10 + BLOCK11
  }

  function Group3(): seq<Row>
  {
    BLOCK12 + BLOCK13 + BLOCK14 + BLOCK15
  }

  function Group4(): seq<Row>
  {
    BLOCK16 + BLOCK17 + BLOCK18 + BLOCK19 + BLOCK20
  }

  function AllRows(): seq<Row>
  {
    Group0() + Group1() + Group2() + Group3() + Group4()
  }

  const SPRS0: seq<SprInfo> := [
    SprInfo(1, "XER"), SprInfo(8, "LR"), SprInfo(9, "CTR"), SprInfo(18, "DSISR"),
    SprInfo(19, "DAR"), SprInfo(22, "DEC"), SprInfo(26, "SRR0"), SprInfo(27, "SRR1"),
    SprInfo(80, "EIE"), SprInfo(81, "EID"), SprInfo(144, "CMPA"), SprInfo(145, "CMPB"),
    SprInfo(146, "CMPC"), SprInfo(147, "CMPD")
  ]

  const SPRS1: seq<SprInfo> := [
    SprInfo(148, "ICR"), SprInfo(149, "DER"), SprInfo(150, "COUNTA"), SprInfo(151, "COUNTB"),
    SprInfo(152, "CMPE"), SprInfo(153, "CMPF"), SprInfo(154, "CMPG"), SprInfo(155, "CMPH"),
    SprInfo(156, "LCTRL1"), SprInfo(157, "LCTRL2"), SprInfo(158, "ICTRL"), SprInfo(159, "BAR"),
    SprInfo(256, "USPRG0"), SprInfo(260, "SPRG4_RO")
  ]

  const SPRS2: seq<SprInfo> := [
    SprInfo(261, "SPRG5_RO"), SprInfo(262, "SPRG6_RO"), SprInfo(263, "SPRG7_RO"), SprInfo(272, "SPRG0"),
    SprInfo(273, "SPRG1"), SprInfo(274, "SPRG2"), SprInfo(275, "SPRG3"), SprInfo(276, "SPRG4"),
    SprInfo(277, "SPRG5"), SprInfo(278, "SPRG6"), SprInfo(279, "SPRG7"), SprInfo(282, "EAR"),
    SprInfo(284, "TBL"), SprInfo(285, "TBU")
  ]

  const SPRS3: seq<SprInfo> := [
    SprInfo(560, "IC_CST"), SprInfo(561, "IC_ADR"), SprInfo(562, "IC_DAT"), SprInfo(568, "DC_CST"),
    SprInfo(569, "DC_ADR"), SprInfo(570, "DC_DAT"), SprInfo(630, "DPDR"), SprInfo(638, "IMMR"),
    SprInfo(784, "MI_CTR"), SprInfo(786, "MI_AP"), SprInfo(787, "MI_EPN"), SprInfo(789, "MI_TWC"),
    SprInfo(790, "MI_RPN"), SprInfo(792, "MD_CTR")
  ]

  const SPRS4: seq<SprInfo> := [
    SprInfo(793, "M_CASID"), SprInfo(794, "MD_AP"), SprInfo(795, "MD_EPN"), SprInfo(796, "M_TWB"),
    SprInfo(797, "MD_TWC"), SprInfo(798, "MD_RPN"), SprInfo(799, "M_TW"), SprInfo(816, "MI_DBCAM"),
    SprInfo(817, "MI_DBRAM0"), SprInfo(818, "MI_DBRAM1"), SprInfo(824, "MD_DBCAM"), SprInfo(825, "MD_DBRAM0"),
    SprInfo(826, "MD_DBRAM1"), SprInfo(944, "ZPR")
  ]

  const SPRS5: seq<SprInfo> := [
    SprInfo(945, "PID"), SprInfo(947, "CCR0"), SprInfo(948, "IAC3"), SprInfo(949, "IAC4"),
    SprInfo(950, "DVC1"), SprInfo(951, "DVC2"), SprInfo(953, "SGR"), SprInfo(954, "DCWR"),
    SprInfo(955, "SLER"), SprInfo(956, "SU0R"), SprInfo(957, "DBCR1"), SprInfo(979, "ICDBDR"),
    SprInfo(980, "ESR"), SprInfo(981, "DEAR")
  ]

  const SPRS6: seq<SprInfo> := [
    SprInfo(982, "EVPR"), SprInfo(984, "TSR"), SprInfo(986, "TCR"), SprInfo(987, "PIT"),
    SprInfo(990, "SRR2"), SprInfo(991, "SRR3"), SprInfo(1008, "DBSR"), SprInfo(1010, "DBCR0"),
    SprInfo(1012, "IAC1"), SprInfo(1013, "IAC2"), SprInfo(1014, "DAC1"), SprInfo(1015, "DAC2"),
    SprInfo(1018, "DCCR"), SprInfo(1019, "ICCR")
  ]

  function AllSprs(): seq<SprInfo>
  {
    SPRS0 + SPRS1 + SPRS2 + SPRS3 + SPRS4 + SPRS5 + SPRS6
  }

  function OpcodesOf(rows: seq<Row>): (ops: seq<Opcode>)
    ensures |ops| == |rows| && forall i :: 0 <= i < |rows| ==> ops[i] == OpcodeOf(rows[i])
  {
    seq(|rows|, i requires 0 <= i < |rows| => OpcodeOf(rows[i]))
  }

  function PpcDebugTables(): Tables
  {
    Tables(OPERANDS, OpcodesOf(AllRows()), AllSprs())
  }
}
