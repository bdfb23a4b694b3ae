/**
 The disassembler, `disppc`, `print_operands` and `handle_bc`.

 The line is built in a buffer by a mixture of `sprintf` at a remembered position and
 `strcat` at the end of the string.  The two agree only while the remembered length is the
 string's length, so the model keeps both.
 */
module Disassembler {
  import opened Basics
  import opened Words
  import opened Opcodes
  import opened Operands
  import opened Text

  const F_RADOCTAL: Word := 0x1
  const F_RADUDECIMAL: Word := 0x2
  const F_RADSDECIMAL: Word := 0x4
  const F_SIMPLE: Word := 0x10
  const F_INSTR: Word := 0x40

  datatype Radix = Octal | UnsignedDecimal | SignedDecimal | Hex

  datatype SprInfo = SprInfo(value: Word, name: string)

  datatype Tables = Tables(operands: seq<Operand>, opcodes: seq<Opcode>, sprs: seq<SprInfo>)

  function RadixOf(flags: Word): Radix
  {
    if flags & F_RADOCTAL != 0 then Octal
    else if flags & F_RADUDECIMAL != 0 then UnsignedDecimal
    else if flags & F_RADSDECIMAL != 0 then SignedDecimal
    else Hex
  }

  /** A 16-bit number under the chosen format; an `unsigned short` is never negative. */
  function RadixText(v: Word, radix: Radix): string
  {
    match radix
    case Octal => "O" + Digits(Value(v), 8)
    case UnsignedDecimal => Digits(Value(v), 10)
    case SignedDecimal => Digits(Value(v), 10)
    case Hex => "0x" + Digits(Value(v), 16)
  }

  // ---------------------------------------------------------------------------------
  // Names of special registers

  function LookupSpr(sprs: seq<SprInfo>, number: Word): Option<string>
  {
    if sprs == [] then None
    else if sprs[0].value == number then Some(sprs[0].name)
    else LookupSpr(sprs[1..], number)
  }

  function SprText(sprs: seq<SprInfo>, v: Word): string
  {
    match LookupSpr(sprs, SwapHalves(v))
    case Some(name) => name
    case None => Digits(Value(SwapHalves(v)), 10)
  }

  /** `spr_name` */
  method SprName(sprs: seq<SprInfo>, v: Word) returns (name: string)
    ensures name == SprText(sprs, v)
  {
    var spr := SwapHalves(v);
    for i := 0 to |sprs|
      invariant LookupSpr(sprs, spr) == LookupSpr(sprs[i..], spr)
    {
      if spr == sprs[i].value {
        return sprs[i].name;
      }
    }
    return Digits(Value(spr), 10);
  }

  function TbrText(v: Word): string
  {
    if SwapHalves(v) == 268 then "TBL"
    else if SwapHalves(v) == 269 then "TBU"
    else "???"
  }

  // ---------------------------------------------------------------------------------
  // Operands as text

  predicate PrintsZero(op: Opcode, o: Operand, v: Word)
  {
    v == 0 && o.field == O_rA && op.hint & H_RA0_IS_0 != 0
  }

  /** The text of one visible operand, without the punctuation around it. */
  function OperandText(t: Tables, op: Opcode, o: Operand, instr: Word, virt: Word, radix: Radix): string
    requires ValidOperand(o)
  {
    var v := ValueIn(instr, o);
    match KindOf(o)
    case Silent => ""
    case Address => "0x" + Digits(Value(TargetOf(instr, op, o, virt)), 16)
    case Register => if PrintsZero(op, o, v) then "0" else "r" + Digits(Value(v), 10)
    case Spr => SprText(t.sprs, v)
    case Tbr => TbrText(v)
    case Literal => "cr2"
    case Immediate(_) => RadixText(v, radix)
  }

  /** Written by `sprintf` at the remembered position, as opposed to `strcat`. */
  predicate UsesSprintf(op: Opcode, o: Operand, v: Word)
  {
    match KindOf(o)
    case Address => true
    case Register => !PrintsZero(op, o, v)
    case Immediate(_) => true
    case _ => false
  }

  // ---------------------------------------------------------------------------------
  // The line buffer

  datatype Line = Line(data: string, datalen: nat) {
    /** `sprintf (&data[datalen], ...)`: cuts the string there and puts `s`. */
    function Printed(s: string): Line
    {
      if datalen <= |data| then Line(data[..datalen] + s, datalen) else this
    }

    /** `strcat (data, s)` */
    function Appended(s: string): Line
    {
      Line(data + s, datalen)
    }

    /** `datalen = strlen (data)` */
    function Measured(): Line
    {
      Line(data, |data|)
    }
  }

  datatype Pen = Pen(line: Line, open: nat)

  function Separated(pen: Pen, k: nat): Line
  {
    if k > 0 && pen.open == 0
    then Line(pen.line.data + ",", pen.line.datalen + 1)
    else pen.line
  }

  /** One pass of the operand loop for a visible operand. */
  function PrintOne(pen: Pen, k: nat, kind: Kind, sprintf: bool, text: string): Pen
  {
    var l := Separated(pen, k);
    var l' := if sprintf then l.Printed(text) else l.Appended(text);
    if pen.open > 0 && (kind.Register? || kind.Immediate?)
    then Pen(l'.Appended(")").Measured(), pen.open - 1)
    else if kind == Immediate(true)
    then Pen(l'.Appended("(").Measured(), pen.open + 1)
    else Pen(l'.Measured(), pen.open)
  }

  /** Operand lists that can be printed; identifiers that are not in the table are passed over. */
  predicate Printable(operands: seq<Operand>, fields: seq<nat>)
  {
    forall i :: 0 <= i < |fields| ==>
      1 <= fields[i] && (fields[i] <= |operands| ==> ValidOperand(operands[fields[i] - 1]))
  }

  function PrintFrom(t: Tables, op: Opcode, instr: Word, virt: Word, radix: Radix, k: nat, pen: Pen): Pen
    requires Printable(t.operands, op.fields)
    requires k <= |op.fields|
    decreases |op.fields| - k
  {
    if k == |op.fields| then pen
    else if op.fields[k] > |t.operands| then PrintFrom(t, op, instr, virt, radix, k + 1, pen)
    else
      var o := t.operands[op.fields[k] - 1];
      if KindOf(o) == Silent then PrintFrom(t, op, instr, virt, radix, k + 1, pen)
      else
        var text := OperandText(t, op, o, instr, virt, radix);
        var sprintf := UsesSprintf(op, o, ValueIn(instr, o));
        PrintFrom(t, op, instr, virt, radix, k + 1, PrintOne(pen, k, KindOf(o), sprintf, text))
  }

  /** The disassembler's context record: the fields that printing updates. */
  class PpcCtx {
    var data: string
    var datalen: nat
    var openParens: nat

    constructor (line: string, length: nat)
      ensures data == line && datalen == length && openParens == 0
    {
      data, datalen, openParens := line, length, 0;
    }

    ghost function AsPen(): Pen
      reads this
    {
      Pen(Line(data, datalen), openParens)
    }

    method Sprintf(s: string)
      modifies this
      ensures Line(data, datalen) == old(Line(data, datalen).Printed(s))
      ensures openParens == old(openParens)
    {
      if datalen <= |data| {
        data := data[..datalen] + s;
      }
    }

    method Strcat(s: string)
      modifies this
      ensures Line(data, datalen) == old(Line(data, datalen).Appended(s))
      ensures openParens == old(openParens)
    {
      data := data + s;
    }

    /** Closes or opens the parenthesis around the register of an offset, then measures. */
    method Finish(kind: Kind)
      modifies this
      ensures AsPen() ==
        var l := old(Line(data, datalen));
        var open := old(openParens);
        if open > 0 && (kind.Register? || kind.Immediate?) then Pen(l.Appended(")").Measured(), open - 1)
        else if kind == Immediate(true) then Pen(l.Appended("(").Measured(), open + 1)
        else Pen(l.Measured(), open)
    {
      if openParens > 0 && (kind.Register? || kind.Immediate?) {
        data := data + ")";
        openParens := openParens - 1;
      } else if kind == Immediate(true) {
        data := data + "(";
        openParens := openParens + 1;
      }
      datalen := |data|;
    }

    /** The part of the operand loop that writes a visible operand. */
    method PrintOperand(t: Tables, op: Opcode, opr: Operand, instr: Word, virt: Word, radix: Radix, field: nat)
      requires ValidOperand(opr)
      modifies this
      ensures AsPen() == PrintOne(old(AsPen()), field, KindOf(opr), UsesSprintf(op, opr, ValueIn(instr, opr)),
                                  OperandText(t, op, opr, instr, virt, radix))
    {
      hide KindOf, ValueIn, OperandText, UsesSprintf;
      if field > 0 && openParens == 0 {
        Strcat(",");
        datalen := datalen + 1;
      }
      var operand := ValueIn(instr, opr);
      var text := OperandText(t, op, opr, instr, virt, radix);
      if UsesSprintf(op, opr, operand) {
        Sprintf(text);
      } else {
        Strcat(text);
      }
      Finish(KindOf(opr));
    }

    /** `print_operands` */
    method PrintOperands(t: Tables, op: Opcode, instr: Word, virt: Word, radix: Radix)
      requires Printable(t.operands, op.fields)
      modifies this
      ensures AsPen() == PrintFrom(t, op, instr, virt, radix, 0, Pen(Line(old(data), old(datalen)), 0))
    {
      hide KindOf, ValueIn, OperandText, UsesSprintf, PrintOne;
      openParens := 0;
      ghost var start := AsPen();
      for field := 0 to |op.fields|
        invariant PrintFrom(t, op, instr, virt, radix, 0, start)
               == PrintFrom(t, op, instr, virt, radix, field, AsPen())
      {
        if op.fields[field] > |t.operands| {
          continue;
        }
        var opr := t.operands[op.fields[field] - 1];
        if KindOf(opr) == Silent {
          continue;
        }
        PrintOperand(t, op, opr, instr, virt, radix, field);
      }
    }

    /** Mnemonic and operands, at the end of what was written so far. */
    method PrintInstruction(t: Tables, op: Opcode, instr: Word, virt: Word, radix: Radix)
      requires ValidFields(t.operands, op.fields)
      requires datalen == |data|
      modifies this
      ensures data == old(data) + InstructionText(t, op, instr, virt, radix)
    {
      hide Mnemonic, PrintFrom, KindOf;
      ghost var prefix := data;
      assert data[..datalen] == data;
      Sprintf(Mnemonic(op.name));
      datalen := datalen + 8;
      ghost var pen := Pen(Line(Mnemonic(op.name), 8), 0);
      PrefixIndependent(t, op, instr, virt, radix, 0, prefix, pen);
      PrintOperands(t, op, instr, virt, radix);
    }

    /** `handle_bc`: prints a simplified form, if there is one. */
    method HandleBc(t: Tables, op: Opcode, instr: Word, virt: Word, radix: Radix) returns (printed: bool)
      requires ValidFields(t.operands, op.fields) && ValidFields(t.operands, BLT.fields) && ValidFields(t.operands, BNE.fields)
      requires datalen == |data|
      modifies this
      ensures printed <==> Simplified(t.operands, op, instr).Some?
      ensures printed ==>
                data == old(data) + InstructionText(t, Simplified(t.operands, op, instr).value, instr, virt, radix)
      ensures !printed ==> data == old(data) && datalen == old(datalen)
    {
      hide InstructionText, Extract, KindOf;
      var bo := GetOperandValue(t.operands, op, instr, O_BO);
      if bo.None? {
        return false;
      }
      var bi := GetOperandValue(t.operands, op, instr, O_BI);
      if bi.None? {
        return false;
      }
      if bo.value == 12 && bi.value == 0 {
        PrintInstruction(t, BLT, instr, virt, radix);
        return true;
      } else if bo.value == 4 && bi.value == 10 {
        PrintInstruction(t, BNE, instr, virt, radix);
        return true;
      } else if bo.value == 16 && bi.value == 0 {
        PrintInstruction(t, BDNZ, instr, virt, radix);
        return true;
      }
      return false;
    }
  }

  // ---------------------------------------------------------------------------------
  // Whole lines

  function ZeroPadded(n: nat, width: nat): (s: string)
    ensures |s| >= width
    ensures |Digits(n, 16)| <= width ==> |s| == width
  {
    var d := Digits(n, 16);
    if |d| < width then Zeros(width - |d|) + d else d
  }

  function Zeros(n: nat): (s: string)
    ensures |s| == n
  {
    if n == 0 then "" else "0" + Zeros(n - 1)
  }

  function ByteText(instr: Word, shift: Word): string
    requires shift <= 24
  {
    ZeroPadded(Value((instr >> shift) & 0xff), 2)
  }

  /** The address and, on request, the raw instruction in front of the disassembly. */
  function Prefix(instr: Word, virt: Word, flags: Word): string
  {
    ZeroPadded(Value(virt), 8) + ": " +
    if flags & F_INSTR != 0
    then "   " + ByteText(instr, 24) + " " + ByteText(instr, 16) + " "
         + ByteText(instr, 8) + " " + ByteText(instr, 0) + "    "
    else "   "
  }

  /** `"%-7s "`: the mnemonic padded to seven columns and one space. */
  function Mnemonic(name: string): string
  {
    name + Spaces(if |name| < 7 then 8 - |name| else 1)
  }

  /** The mnemonic and operands of one instruction; the buffer position moves on by 8. */
  function InstructionText(t: Tables, op: Opcode, instr: Word, virt: Word, radix: Radix): string
    requires ValidFields(t.operands, op.fields)
  {
    PrintFrom(t, op, instr, virt, radix, 0, Pen(Line(Mnemonic(op.name), 8), 0)).line.data
  }

  predicate AllFieldsValid(t: Tables)
  {
    forall i :: 0 <= i < |t.opcodes| ==> ValidFields(t.operands, t.opcodes[i].fields)
  }

  /** Simplified forms can be printed, if any opcode asks for them. */
  predicate HandlersValid(t: Tables)
  {
    forall i :: 0 <= i < |t.opcodes| && t.opcodes[i].handler ==>
      ValidFields(t.operands, BLT.fields) && ValidFields(t.operands, BNE.fields)
  }

  // The simplified forms of `bc`.
  const BLT := Opcode(0x4000_0000, B_MASK, [O_BD], "blt", H_RELATIVE)
  const BNE := Opcode(0x4000_0000, B_MASK, [O_cr2, O_BD], "bne", H_RELATIVE)
  const BDNZ := Opcode(0x4000_0000, B_MASK, [O_BD], "bdnz", H_RELATIVE)

  /** The simplified form that `handle_bc` chooses. */
  function Simplified(operands: seq<Operand>, op: Opcode, instr: Word): (r: Option<Opcode>)
    requires ValidFields(operands, op.fields)
    ensures r.Some? ==> r.value in [BLT, BNE, BDNZ]
  {
    if O_BO !in op.fields || O_BI !in op.fields then None
    else
      var bo, bi := ValueIn(instr, operands[O_BO - 1]), ValueIn(instr, operands[O_BI - 1]);
      if bo == 12 && bi == 0 then Some(BLT)
      else if bo == 4 && bi == 10 then Some(BNE)
      else if bo == 16 && bi == 0 then Some(BDNZ)
      else None
  }

  /** Whether an instruction is printed in a simplified form. */
  predicate Simplifies(t: Tables, op: Opcode, instr: Word, flags: Word)
    requires ValidFields(t.operands, op.fields)
  {
    flags & F_SIMPLE != 0 && op.handler && Simplified(t.operands, op, instr).Some?
  }

  /** The opcode that an instruction is printed under. */
  function Shown(t: Tables, op: Opcode, instr: Word, flags: Word): Opcode
    requires ValidFields(t.operands, op.fields)
  {
    if Simplifies(t, op, instr, flags) then Simplified(t.operands, op, instr).value else op
  }

  function LineText(t: Tables, instr: Word, virt: Word, flags: Word): string
    requires AllFieldsValid(t) && HandlersValid(t)
  {
    Prefix(instr, virt, flags) +
    match Probe(t.opcodes, instr, 0, |t.opcodes|)
    case None => "        .long 0x" + ZeroPadded(Value(instr), 8)
    case Some(i) => InstructionText(t, Shown(t, t.opcodes[i], instr, flags), instr, virt, RadixOf(flags))
  }

  function Advance(addr: Word, i: nat): Word
  {
    if i == 0 then addr else Plus(Advance(addr, i - 1), 4)
  }

  lemma AdvanceNext(addr: Word, i: nat)
    ensures Advance(addr, i + 1) == Plus(Advance(addr, i), 4)
    ensures Advance(addr, 0) == addr
  {
    hide Plus;
  }

  /** `disppc`: the lines handed to the print function, one for each instruction. */
  method Disppc(t: Tables, fetch: Word -> Word, memaddr: Word, virt: Word, count: nat, flags: Word)
    returns (lines: seq<string>)
    requires AllFieldsValid(t) && HandlersValid(t)
    ensures |lines| == count
    ensures forall i :: 0 <= i < count ==>
              lines[i] == LineText(t, fetch(Advance(memaddr, i)),
                                   Advance(if virt == 0 then memaddr else virt, i), flags)
  {
    hide LineText, Plus, Advance, AllFieldsValid, HandlersValid;
    lines := [];
    var base := if virt == 0 then memaddr else virt;
    var addr, shown := memaddr, base;
    AdvanceNext(memaddr, 0);
    AdvanceNext(base, 0);
    for i := 0 to count
      invariant addr == Advance(memaddr, i) && shown == Advance(base, i)
      invariant |lines| == i
      invariant forall k :: 0 <= k < i ==>
                  lines[k] == LineText(t, fetch(Advance(memaddr, k)), Advance(base, k), flags)
    {
      var line := DisassembleOne(t, fetch(addr), shown, flags);
      lines := lines + [line];
      addr, shown := Plus(addr, 4), Plus(shown, 4);
      AdvanceNext(memaddr, i);
      AdvanceNext(base, i);
    }
  }

  /** The buffer positions that the code adds up are the length of what it has written. */
  lemma PrefixLength(instr: Word, virt: Word, flags: Word)
    ensures |Prefix(instr, virt, flags)| == 10 + if flags & F_INSTR != 0 then 18 else 3
  {
    ValueInRange(virt);
    HexWidth(Value(virt), 8);
    ByteWidth(instr, 24);
    ByteWidth(instr, 16);
    ByteWidth(instr, 8);
    ByteWidth(instr, 0);
  }

  lemma ByteWidth(instr: Word, shift: Word)
    requires shift <= 24
    ensures |ByteText(instr, shift)| == 2
  {
    var b := (instr >> shift) & 0xff;
    assert LowMask(8) == 0xff;
    assert Pow2(8) == 0x100;
    ValueBound(b, 8);
    HexWidth(Value(b), 2);
  }

  /** The body of the `disppc` loop. */
  method DisassembleOne(t: Tables, instr: Word, virt: Word, flags: Word) returns (line: string)
    requires AllFieldsValid(t) && HandlersValid(t)
    ensures line == LineText(t, instr, virt, flags)
  {
    hide Prefix, RadixOf, InstructionText, Simplified, ZeroPadded, ValidFields;
    PrefixLength(instr, virt, flags);
    var datalen := 10;
    datalen := if flags & F_INSTR != 0 then datalen + 18 else datalen + 3;
    var ctx := new PpcCtx(Prefix(instr, virt, flags), datalen);
    var found := FindOpcode(t.opcodes, instr);
    match found {
      case None =>
        assert ctx.data[..ctx.datalen] == ctx.data;
        ctx.Sprintf("        .long 0x" + ZeroPadded(Value(instr), 8));
      case Some(i) =>
        var op := t.opcodes[i];
        var printed := false;
        if flags & F_SIMPLE != 0 && op.handler {
          printed := ctx.HandleBc(t, op, instr, virt, RadixOf(flags));
        }
        if !printed {
          ctx.PrintInstruction(t, op, instr, virt, RadixOf(flags));
        }
    }
    line := ctx.data;
  }

  function Behind(prefix: string, pen: Pen): Pen
  {
    Pen(Line(prefix + pen.line.data, |prefix| + pen.line.datalen), pen.open)
  }

  lemma SeparatedBehind(prefix: string, pen: Pen, k: nat)
    ensures var l, m := Separated(pen, k), Separated(Behind(prefix, pen), k);
            m.data == prefix + l.data && m.datalen == |prefix| + l.datalen
  {
  }

  lemma WrittenBehind(prefix: string, l: Line, m: Line, sprintf: bool, text: string)
    requires m.data == prefix + l.data && m.datalen == |prefix| + l.datalen
    ensures (if sprintf then m.Printed(text) else m.Appended(text)).data
         == prefix + (if sprintf then l.Printed(text) else l.Appended(text)).data
  {
    if l.datalen <= |l.data| {
      assert m.data[..m.datalen] + text == prefix + (l.data[..l.datalen] + text);
    }
    assert m.data + text == prefix + (l.data + text);
  }

  lemma PrintOneBehind(prefix: string, pen: Pen, k: nat, kind: Kind, sprintf: bool, text: string)
    ensures PrintOne(Behind(prefix, pen), k, kind, sprintf, text)
         == Behind(prefix, PrintOne(pen, k, kind, sprintf, text))
  {
    hide Separated, Line.Printed;
    var l, m := Separated(pen, k), Separated(Behind(prefix, pen), k);
    SeparatedBehind(prefix, pen, k);
    WrittenBehind(prefix, l, m, sprintf, text);
    var l' := if sprintf then l.Printed(text) else l.Appended(text);
    assert prefix + l'.data + ")" == prefix + (l'.data + ")");
    assert prefix + l'.data + "(" == prefix + (l'.data + "(");
  }

  /** What stands in front of the mnemonic does not affect how the operands are printed. */
  lemma {:induction false} PrefixIndependent(
    t: Tables, op: Opcode, instr: Word, virt: Word, radix: Radix, k: nat, prefix: string, pen: Pen)
    requires ValidFields(t.operands, op.fields)
    requires k <= |op.fields|
    ensures PrintFrom(t, op, instr, virt, radix, k, Behind(prefix, pen))
         == Behind(prefix, PrintFrom(t, op, instr, virt, radix, k, pen))
    decreases |op.fields| - k
  {
    hide KindOf, ValueIn, OperandText, UsesSprintf, PrintOne, Behind;
    if k < |op.fields| {
      var o := t.operands[op.fields[k] - 1];
      if KindOf(o) == Silent {
        PrefixIndependent(t, op, instr, virt, radix, k + 1, prefix, pen);
      } else {
        var text := OperandText(t, op, o, instr, virt, radix);
        var sprintf := UsesSprintf(op, o, ValueIn(instr, o));
        PrintOneBehind(prefix, pen, k, KindOf(o), sprintf, text);
        PrefixIndependent(t, op, instr, virt, radix, k + 1, prefix,
                          PrintOne(pen, k, KindOf(o), sprintf, text));
      }
    }
  }
}
