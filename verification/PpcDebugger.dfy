/**
 The debugger with its own tables.  The results about searching, disassembling and assembling
 ask for tables of a certain shape; the debugger's tables have it, so here the results
 are stated of every 32-bit word without any assumption.
 */
module PpcDebugger {
  import opened Basics
  import opened Words
  import opened Opcodes
  import opened Operands
  import opened Text
  import opened Disassembler
  import opened Assembler
  import opened RoundTrip
  import opened Buffers
  import opened PpcTables
  import PpcSearch
  import PpcShapes
  import PpcNames

  // ---------------------------------------------------------------------------------
  // The tables

  lemma RowIsNamed(t: Tables, i: nat)
    requires t.operands == OPERANDS && i < |AllRows()|
    ensures var op := OpcodeOf(AllRows()[i]); ValidFields(t.operands, op.fields) ==> WellNamed(t, op)
  {
    hide AllRows, PpcNames.Key, PpcNames.KeyIndex, LowerWord, KindOf, ValidFields;
    PpcNames.NamedTable();
    var r := AllRows()[i];
    assert PpcNames.NamedRow(r, i);
    if |r.name| == 8 {
      PpcShapes.OtherOperands();
      PpcShapes.FirstField(t, r);
    }
  }

  lemma OpcodeIsWellFormed(t: Tables, i: nat)
    requires t.operands == OPERANDS && i < |AllRows()|
    ensures WellFormedOpcode(t, OpcodeOf(AllRows()[i]))
  {
    hide AllRows, OpcodeOf, PpcShapes.ShapedRow, PpcShapes.BranchRow, PpcSearch.RowOrdered, WellFormedOpcode, WellNamed,
      ValidFields, OpcodeInMask, SubMask;
    PpcSearch.SortedTable();
    PpcShapes.ShapedTable();
    var r := AllRows()[i];
    assert PpcSearch.RowInForm(r) && PpcShapes.ShapedRow(r);
    RowIsNamed(t, i);
    PpcShapes.RowIsWellFormed(t, r);
  }

  predicate ShortLowerName(op: Opcode)
  {
    LowerWord(op.name) && |op.name| <= 7
  }

  lemma SimplifiedNames()
    ensures ShortLowerName(BLT) && ShortLowerName(BNE) && ShortLowerName(BDNZ)
    ensures OpcodeInMask(BLT) && OpcodeInMask(BNE) && OpcodeInMask(BDNZ)
  {
  }

  lemma SimplifiedFields()
    ensures BLT.fields == Ids([BD] + []) && BDNZ.fields == Ids([BD] + []) && BNE.fields == Ids([CR2, BD] + [])
  {
  }

  lemma SimplifiedLists()
    ensures PpcShapes.PlainList([BD], B_MASK) && PpcShapes.PlainList([CR2, BD], B_MASK)
  {
    hide PpcShapes.Listed, ValidOperand, KindOf, MaskOf;
    PpcShapes.OperandsListed0();
    PpcShapes.OperandsListed3();
    PpcShapes.PlainOperands0();
    PpcShapes.PlainOperands2();
  }

  lemma SimplifiedIsWellFormed(t: Tables, op: Opcode, ops: seq<Operand>)
    requires t.operands == OPERANDS && PpcShapes.PlainList(ops, op.mask) && op.fields == Ids(ops + [])
    requires ShortLowerName(op) && OpcodeInMask(op)
    ensures WellFormedOpcode(t, op)
  {
    hide KindOf, ValidOperand, PpcShapes.Apart, OpcodeInMask, LowerWord, WellFormedOpcode, PpcShapes.Listed;
    PpcShapes.ShapeOf(t, op, ops, []);
  }

  lemma HandlersAreWellFormed(t: Tables)
    requires t == PpcDebugTables()
    ensures WellFormedHandlers(t)
  {
    hide PpcDebugTables, WellFormedOpcode, OpcodeInMask, ShortLowerName, PpcShapes.PlainList, PpcNames.Unlisted, Ids;
    assert t.operands == OPERANDS by {
      OperandsOf(t);
    }
    SimplifiedNames();
    SimplifiedFields();
    SimplifiedLists();
    SimplifiedIsWellFormed(t, BLT, [BD]);
    SimplifiedIsWellFormed(t, BNE, [CR2, BD]);
    SimplifiedIsWellFormed(t, BDNZ, [BD]);
    PpcNames.UnlistedWords();
    forall i | 0 <= i < |t.opcodes|
      ensures t.opcodes[i].name != "blt" && t.opcodes[i].name != "bne" && t.opcodes[i].name != "bdnz"
    {
      SameName(t, i);
      PpcNames.UnlistedIsNoMnemonic(i, "blt");
      PpcNames.UnlistedIsNoMnemonic(i, "bne");
      PpcNames.UnlistedIsNoMnemonic(i, "bdnz");
    }
  }

  lemma OperandsOf(t: Tables)
    requires t == PpcDebugTables()
    ensures t.operands == OPERANDS
  {
    hide AllRows, AllSprs;
  }

  lemma TablesAreWellFormed()
    ensures WellFormed(PpcDebugTables())
    ensures AllFieldsValid(PpcDebugTables()) && HandlersValid(PpcDebugTables())
    ensures SearchOrdered(PpcDebugTables().opcodes)
  {
    hide AllRows, OpcodeOf, AllSprs, WellFormedOpcode, WellFormedSpr, WellFormedHandlers, SearchOrdered;
    var t := PpcDebugTables();
    forall i | 0 <= i < |t.opcodes|
      ensures WellFormedOpcode(t, t.opcodes[i])
    {
      OpcodeIsWellFormed(t, i);
    }
    forall i, j | 0 <= i < j < |t.opcodes|
      ensures t.opcodes[i].name != t.opcodes[j].name
    {
      SameName(t, i);
      SameName(t, j);
      PpcNames.NamesAreDistinct(i, j);
    }
    PpcNames.SprsAreWellFormed();
    HandlersAreWellFormed(t);
    assert WellFormed(t);
    WellFormedHasValidFields(t);
    PpcSearch.TableIsSearchable(0);
  }

  lemma SameName(t: Tables, i: nat)
    requires t == PpcDebugTables() && i < |t.opcodes|
    ensures i < |AllRows()| && t.opcodes[i].name == AllRows()[i].name
  {
    hide AllRows, AllSprs;
  }

  // ---------------------------------------------------------------------------------
  // Disassembling and assembling

  lemma DirectiveWord(digits: string)
    ensures GetWordSpec("        .long 0x" + digits).0 == ".long" && Lowered(".long") == ".long"
  {
    hide GetWordSpec;
    var name, rest := ".long", " 0x" + digits;
    assert Spaces(8) + (name + rest) == "        .long 0x" + digits;
    GetWordSkipsSpaces(8, name + rest);
    GetWordOf(name, rest);
    LoweredIsSame(name);
  }

  /** The directive for a word that is no instruction is not a mnemonic. */
  lemma DirectiveIsUnknown(t: Tables, virt: Word, digits: string)
    requires t == PpcDebugTables() && AllFieldsValid(t)
    ensures Assemble(t, virt, "        .long 0x" + digits) == Assembled(0, E_ASM_BAD_OPCODE)
  {
    hide PpcDebugTables, AssembleFrom, GetWordSpec, NameIndex, Lowered, AllFieldsValid, PpcNames.Unlisted;
    DirectiveWord(digits);
    PpcNames.UnlistedWords();
    forall i | 0 <= i < |t.opcodes|
      ensures t.opcodes[i].name != ".long"
    {
      SameName(t, i);
      PpcNames.UnlistedIsNoMnemonic(i, ".long");
    }
  }

  /**
   For every 32-bit word, every address and all flags: if the word is an instruction, its
   disassembly assembles to the word exactly when the instruction survives and is not printed in a
   simplified form; otherwise no opcode matches it, the disassembly is a directive with the word
   itself, and the assembler rejects it.
   */
  lemma DebuggerRoundTrip(t: Tables, instr: Word, virt: Word, flags: Word)
    requires t == PpcDebugTables()
    ensures AllFieldsValid(t) && HandlersValid(t)
    ensures match LinearFind(t.opcodes, instr)
            case Some(i) =>
              Assemble(t, virt, Disassembly(t, instr, virt, flags)) == Assembled(instr, 0)
              <==> Survives(t, t.opcodes[i], instr, RadixOf(flags)) && !Simplifies(t, t.opcodes[i], instr, flags)
            case None =>
              && Disassembly(t, instr, virt, flags) == "        .long 0x" + ZeroPadded(Value(instr), 8)
              && Assemble(t, virt, Disassembly(t, instr, virt, flags)) == Assembled(0, E_ASM_BAD_OPCODE)
  {
    hide PpcDebugTables, Survives, Simplifies, Assemble, Disassembly, ZeroPadded, WellFormed, SearchOrdered;
    TablesAreWellFormed();
    LineRoundTrip(t, instr, virt, flags);
    DirectiveIsUnknown(t, virt, ZeroPadded(Value(instr), 8));
  }

  lemma TablesAreShort(t: Tables)
    requires t == PpcDebugTables()
    ensures ShortSprs(t)
  {
    hide AllRows, AllSprs, OpcodesOf, WellFormedSpr;
    PpcNames.SprsAreWellFormed();
  }

  /** On the way no buffer overflows, whatever the word, the address and the flags. */
  lemma DebuggerBuffers(t: Tables, instr: Word, virt: Word, flags: Word)
    requires t == PpcDebugTables()
    ensures AllFieldsValid(t) && HandlersValid(t)
    ensures |LineText(t, instr, virt, flags)| < LINE_BUFFER
    ensures WordsFit(Disassembly(t, instr, virt, flags))
  {
    hide PpcDebugTables, LineText, Disassembly, WordsFit, WellFormed, SearchOrdered, ShortSprs;
    TablesAreWellFormed();
    TablesAreShort(t);
    BuffersSuffice(t, instr, virt, flags);
  }

  /** The same of the code: disassemble, cut off the address and the raw bytes, and assemble again. */
  method Reassemble(t: Tables, instr: Word, virt: Word, flags: Word) returns (word: Word, err: nat)
    requires t == PpcDebugTables()
    ensures AllFieldsValid(t)
    ensures match LinearFind(t.opcodes, instr)
            case Some(i) =>
              word == instr && err == 0
              <==> Survives(t, t.opcodes[i], instr, RadixOf(flags)) && !Simplifies(t, t.opcodes[i], instr, flags)
            case None => word == 0 && err == E_ASM_BAD_OPCODE
  {
    hide PpcDebugTables, Survives, Simplifies, Shown, Assemble, Probe, ZeroPadded, WellFormed, SearchOrdered, Prefix,
      InstructionText;
    TablesAreWellFormed();
    DebuggerRoundTrip(t, instr, virt, flags);
    var line := DisassembleOne(t, instr, virt, flags);
    word, err := Asmppc(t, virt, line[|Prefix(instr, virt, flags)|..]);
  }

  lemma InFirstGroup(t: Tables, i: nat)
    requires t == PpcDebugTables() && i < |Group0()|
    ensures i < |t.opcodes| && t.opcodes[i] == OpcodeOf(Group0()[i])
  {
    hide Group0, Group1, Group2, Group3, Group4, OpcodeOf, AllSprs;
  }

  /** The row that entry `i` of the opcode table stands for. */
  lemma RowOf(t: Tables, i: nat)
    requires t == PpcDebugTables() && i < |t.opcodes|
    ensures i < |AllRows()| && t.opcodes[i] == OpcodeOf(AllRows()[i])
    ensures PpcShapes.ShapedRow(AllRows()[i]) && PpcShapes.BranchRow(AllRows()[i])
  {
    hide AllRows, AllSprs, OpcodeOf, PpcShapes.ShapedRow, PpcShapes.BranchRow;
    PpcShapes.ShapedTable();
  }

  /** The printed operands of an entry are those of its row. */
  lemma PrintedOperands(t: Tables, r: Row)
    requires t.operands == OPERANDS && PpcShapes.ShapedRow(r)
    ensures ValidFields(t.operands, OpcodeOf(r).fields) && Visible(t, OpcodeOf(r), 0) == r.printed
  {
    hide KindOf, ValidOperand, PpcShapes.Apart, PpcShapes.Listed, PpcShapes.Quiet;
    PpcShapes.PrintedAre(t, OpcodeOf(r), r.printed, r.silent);
  }

  /** No load or store with a displacement assembles to itself: `8(r1)` is read as one number. */
  lemma DisplacementsAreLost(t: Tables, i: nat, instr: Word, radix: Radix)
    requires t == PpcDebugTables() && i < |t.opcodes|
    requires AllRows()[i].printed == RD_D_RA || AllRows()[i].printed == RS_D_RA
    ensures ValidFields(t.operands, t.opcodes[i].fields) && !Survives(t, t.opcodes[i], instr, radix)
  {
    hide AllRows, AllSprs, OpcodeOf, PpcShapes.ShapedRow, PpcShapes.BranchRow, AllBitsPrinted, KindOf, ValidOperand;
    RowOf(t, i);
    PrintedOperands(t, AllRows()[i]);
    PpcShapes.OtherOperands();
    assert Visible(t, t.opcodes[i], 0)[1] == D;
    assert !OperandSurvives(t, D, instr, radix);
  }

  predicate ThreeRegisters(r: Row)
  {
    r.mask == X_MASK && (r.printed == RD_RA_RB || r.printed == RA_RS_RB || r.printed == RS_RA_RB)
  }

  lemma ThreeRegisterBits(ops: seq<Operand>)
    requires ops == RD_RA_RB || ops == RA_RS_RB || ops == RS_RA_RB
    ensures AllValid(ops) && Union(X_MASK, MaskOfAll(ops)) == 0xffff_ffff
    ensures forall k :: 0 <= k < |ops| ==> KindOf(ops[k]) == Register
  {
    assert ops[1..][1..][1..] == [];
  }

  /** Every instruction on three registers assembles to itself, in any radix and at any address. */
  lemma RegistersSurvive(t: Tables, i: nat, instr: Word, radix: Radix)
    requires t == PpcDebugTables() && i < |t.opcodes| && ThreeRegisters(AllRows()[i])
    ensures ValidFields(t.operands, t.opcodes[i].fields)
    ensures Survives(t, t.opcodes[i], instr, radix) <==> |t.opcodes[i].name| <= 7
  {
    hide AllRows, AllSprs, OpcodeOf, PpcShapes.ShapedRow, PpcShapes.BranchRow, KindOf, ValidOperand, Union, SubMask,
      MaskOfAll;
    RowOf(t, i);
    PrintedOperands(t, AllRows()[i]);
    ThreeRegisterBits(AllRows()[i].printed);
    AllOnes(instr);
    SameMask(AllRows()[i]);
  }

  lemma AllOnes(w: Word)
    ensures SubMask(w, 0xffff_ffff)
  {
  }

  lemma SameMask(r: Row)
    ensures OpcodeOf(r).mask == r.mask
  {
  }

  lemma BranchBits(ops: seq<Operand>)
    requires ops == BO_BI_BD
    ensures AllValid(ops) && Union(B_MASK, MaskOfAll(ops)) == 0xffff_ffff
    ensures KindOf(BO) == Immediate(false) && KindOf(BI) == Immediate(false) && KindOf(BD) == Address
  {
    assert ops[1..][1..][1..] == [];
    assert MaskOfAll(ops[1..][1..]) == 0x0000_fffc;
    assert MaskOfAll(ops[1..]) == 0x001f_fffc;
  }

  lemma BranchRow(t: Tables)
    requires t == PpcDebugTables()
    ensures |t.opcodes| > 9 && |AllRows()| > 9 && t.opcodes[9] == OpcodeOf(AllRows()[9])
    ensures AllRows()[9] == Row(0x4000_0000, B_MASK, BO_BI_BD, AA_LK, "bc", H_RELATIVE, true)
    ensures PpcShapes.ShapedRow(AllRows()[9])
  {
    hide PpcDebugTables, PpcShapes.ShapedRow, PpcShapes.BranchRow, OpcodeOf;
    InFirstGroup(t, 9);
    RowOf(t, 9);
  }

  /** Conditional branches survive in every radix but octal. */
  lemma BranchesSurvive(t: Tables, instr: Word, radix: Radix)
    requires t == PpcDebugTables() && radix != Octal
    ensures |t.opcodes| > 9 && ValidFields(t.operands, t.opcodes[9].fields)
    ensures Survives(t, t.opcodes[9], instr, radix)
  {
    hide PpcDebugTables, AllRows, PpcShapes.ShapedRow, KindOf, ValidOperand, Union, SubMask, MaskOfAll;
    OperandsOf(t);
    BranchRow(t);
    PrintedOperands(t, AllRows()[9]);
    BranchBits(BO_BI_BD);
    AllOnes(instr);
  }

  /**
   The branch `bc 12,0,` to 16 bytes ahead comes back when it is printed plainly, but not when
   simplified mnemonics are asked for: `blt` is not in the assembler's table.
   */
  lemma SimplifiedBranchIsLost(t: Tables, virt: Word)
    requires t == PpcDebugTables()
    ensures AllFieldsValid(t) && HandlersValid(t)
    ensures Assemble(t, virt, Disassembly(t, 0x4180_0010, virt, 0)) == Assembled(0x4180_0010, 0)
    ensures Assemble(t, virt, Disassembly(t, 0x4180_0010, virt, F_SIMPLE)) != Assembled(0x4180_0010, 0)
  {
    hide PpcDebugTables, AllRows, Survives, Assemble, Disassembly, WellFormed, SearchOrdered, ZeroPadded,
      PpcShapes.ShapedRow, LinearFind, Simplifies;
    TablesAreWellFormed();
    BranchRow(t);
    FoundAt(t, 0x4180_0010, 9);
    BranchesSurvive(t, 0x4180_0010, Hex);
    BranchSimplifies(t);
    DebuggerRoundTrip(t, 0x4180_0010, virt, 0);
    DebuggerRoundTrip(t, 0x4180_0010, virt, F_SIMPLE);
  }

  lemma FoundAt(t: Tables, instr: Word, i: nat)
    requires SearchOrdered(t.opcodes) && i < |t.opcodes| && Matches(instr, t.opcodes[i])
    ensures LinearFind(t.opcodes, instr) == Some(i)
  {
    hide Matches, SearchOrdered;
    ProbeComplete(t.opcodes, instr, 0, |t.opcodes|, i);
    ProbeIsLinear(t.opcodes, instr);
  }

  lemma BranchSimplifies(t: Tables)
    requires t == PpcDebugTables()
    ensures |t.opcodes| > 9 && ValidFields(t.operands, t.opcodes[9].fields)
    ensures Simplifies(t, t.opcodes[9], 0x4180_0010, F_SIMPLE) && !Simplifies(t, t.opcodes[9], 0x4180_0010, 0)
  {
    hide PpcDebugTables, AllRows, PpcShapes.ShapedRow, KindOf, Visible;
    OperandsOf(t);
    BranchRow(t);
    PrintedOperands(t, AllRows()[9]);
    var fields := t.opcodes[9].fields;
    assert fields[0] == O_BO && fields[1] == O_BI;
    assert t.operands[O_BO - 1] == BO && t.operands[O_BI - 1] == BI;
  }
}
