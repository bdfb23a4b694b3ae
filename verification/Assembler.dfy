/**
 The assembler, `asmppc`, and the parsing of its operands.
 */
module Assembler {
  import opened Basics
  import opened Words
  import opened Opcodes
  import opened Operands
  import opened Text
  import opened Disassembler

  const E_ASM_BAD_OPCODE := 1
  const E_ASM_NUM_OPERANDS := 2
  const E_ASM_BAD_REGISTER := 3
  const E_ASM_BAD_SPR := 4
  const E_ASM_BAD_TBR := 5

  /** The value -1 with which `parse_operand` reports an error. */
  const BAD: Word := 0xffff_ffff

  /** An assembled word, and the error code, which is zero when there was no error. */
  datatype Assembled = Assembled(word: Word, err: nat)

  // ---------------------------------------------------------------------------------
  // Looking names up

  function NameIndex(table: seq<Opcode>, name: string): (r: Option<nat>)
    ensures r.Some? ==> r.value < |table| && table[r.value].name == name
    ensures r.Some? ==> forall i :: 0 <= i < r.value ==> table[i].name != name
    ensures r.None? ==> forall i :: 0 <= i < |table| ==> table[i].name != name
  {
    if table == [] then None
    else if table[0].name == name then Some(0)
    else
      assert forall i :: 1 <= i < |table| ==> table[i] == table[1..][i - 1];
      match NameIndex(table[1..], name)
      case None => None
      case Some(k) => Some(k + 1)
  }

  /** `find_opcode_by_name`: lower-cases the name, then scans the table. */
  method FindOpcodeByName(table: seq<Opcode>, name: string) returns (r: Option<nat>)
    ensures r == NameIndex(table, Lowered(name))
  {
    var buffer := new char[|name|](i requires 0 <= i < |name| => name[i]);
    assert buffer[..] == name;
    DownString(buffer);
    var lowered := buffer[..];
    for idx := 0 to |table|
      invariant forall i :: 0 <= i < idx ==> table[i].name != lowered
    {
      if lowered == table[idx].name {
        return Some(idx);
      }
    }
    return None;
  }

  function SprNumber(sprs: seq<SprInfo>, name: string): Option<Word>
  {
    if sprs == [] then None
    else if sprs[0].name == name then Some(sprs[0].value)
    else SprNumber(sprs[1..], name)
  }

  function SprFieldOf(sprs: seq<SprInfo>, txt: string): Word
  {
    if txt == "" then 0
    else if IsDigit(txt[0]) then SwapHalves(ReadNumber(txt))
    else
      match SprNumber(sprs, Lowered(txt))
      case Some(number) => SwapHalves(number)
      case None => 0
  }

  /** `spr_value`: the SPR field for a name or a number, zero if there is none. */
  method SprValue(sprs: seq<SprInfo>, txt: string) returns (v: Word)
    ensures v == SprFieldOf(sprs, txt)
  {
    if txt == "" {
      return 0;
    }
    if IsDigit(txt[0]) {
      return SwapHalves(ReadNumber(txt));
    }
    var name := Lowered(txt);
    for i := 0 to |sprs|
      invariant SprNumber(sprs, name) == SprNumber(sprs[i..], name)
    {
      if name == sprs[i].name {
        return SwapHalves(sprs[i].value);
      }
    }
    return 0;
  }

  /** `tbr_value` */
  function TbrFieldOf(txt: string): Word
  {
    if txt == "" then 0
    else
      var name := Lowered(txt);
      if IsDigit(name[0]) then
        var val := ReadNumber(name);
        if val == 268 || val == 269 then SwapHalves(val) else 0
      else if name == "tbl" then SwapHalves(268)
      else if name == "tbu" then SwapHalves(269)
      else 0
  }

  // ---------------------------------------------------------------------------------
  // Operands

  /** A register may be written `r3`, `R3`, `%r3`, `%R3` or `3`. */
  function RegisterDigits(txt: string): string
  {
    if txt != "" && (txt[0] == 'r' || txt[0] == 'R') then txt[1..]
    else if |txt| >= 2 && txt[0] == '%' && (txt[1] == 'r' || txt[1] == 'R') then txt[2..]
    else txt
  }

  /** `parse_operand`: the operand's bits in place, or BAD and an error code. */
  function ParseOperand(t: Tables, memaddr: Word, op: Opcode, o: Operand, txt: string): Assembled
    requires ValidOperand(o)
  {
    match KindOf(o)
    case Address =>
      var d := DisplacementTo(ReadNumber(txt), op, memaddr);
      Assembled(Placed(FieldOf(d, o.bits), o), 0)
    case Register =>
      var data := ReadNumber(RegisterDigits(txt));
      if SignedGreater(data, 31) then Assembled(BAD, E_ASM_BAD_REGISTER)
      else Assembled(Placed(data, o), 0)
    case Spr =>
      var data := SprFieldOf(t.sprs, txt);
      if data == 0 then Assembled(BAD, E_ASM_BAD_SPR) else Assembled(Placed(data, o), 0)
    case Tbr =>
      var data := TbrFieldOf(txt);
      if data == 0 then Assembled(BAD, E_ASM_BAD_TBR) else Assembled(Placed(data, o), 0)
    case _ =>
      Assembled(Placed(ReadNumber(txt), o), 0)
  }

  /** The operand loop of `asmppc` from field `k` on, over the rest of the line. */
  function AssembleFrom(t: Tables, memaddr: Word, op: Opcode, k: nat, word: Word, src: string): Assembled
    requires ValidFields(t.operands, op.fields)
    requires k <= |op.fields|
    decreases |op.fields| - k
  {
    if k == |op.fields| then Assembled(word, 0)
    else
      var o := t.operands[op.fields[k] - 1];
      if KindOf(o) == Silent then AssembleFrom(t, memaddr, op, k + 1, word, src)
      else
        var (txt, rest) := GetWordSpec(src);
        if txt == "" then Assembled(0, E_ASM_NUM_OPERANDS)
        else
          var p := ParseOperand(t, memaddr, op, o, txt);
          if p.word == BAD then Assembled(0, p.err)
          else AssembleFrom(t, memaddr, op, k + 1, Union(word, p.word), rest)
  }

  function Assemble(t: Tables, memaddr: Word, src: string): Assembled
    requires AllFieldsValid(t)
  {
    var (name, rest) := GetWordSpec(src);
    if name == "" then Assembled(0, 0)
    else
      match NameIndex(t.opcodes, Lowered(name))
      case None => Assembled(0, E_ASM_BAD_OPCODE)
      case Some(i) => AssembleFrom(t, memaddr, t.opcodes[i], 0, t.opcodes[i].opcode, rest)
  }

  /** `asmppc`: the instruction word for one line of assembly, or zero and an error code. */
  method Asmppc(t: Tables, memaddr: Word, src: string) returns (instr: Word, err: nat)
    requires AllFieldsValid(t)
    ensures Assembled(instr, err) == Assemble(t, memaddr, src)
  {
    hide KindOf, ParseOperand, Union, GetWordSpec, NameIndex, Lowered, ValidOperand;
    err := 0;
    var scratch, ptr := GetWord(src);
    if scratch == "" {
      return 0, err;
    }
    var found := FindOpcodeByName(t.opcodes, scratch);
    if found.None? {
      return 0, E_ASM_BAD_OPCODE;
    }
    var opc := t.opcodes[found.value];
    var wanted := |opc.fields|;
    var n := 0;
    instr := opc.opcode;
    while n < wanted
      invariant 0 <= n <= wanted && err == 0
      invariant AssembleFrom(t, memaddr, opc, n, instr, ptr) == Assemble(t, memaddr, src)
    {
      var oper := t.operands[opc.fields[n] - 1];
      if KindOf(oper) == Silent {
        n := n + 1;
        continue;
      }
      scratch, ptr := GetWord(ptr);
      if scratch == "" {
        break;
      }
      var p := ParseOperand(t, memaddr, opc, oper, scratch);
      if p.word == BAD {
        return 0, p.err;
      }
      instr := Union(instr, p.word);
      n := n + 1;
    }
    if n < wanted {
      return 0, E_ASM_NUM_OPERANDS;
    }
  }
}
