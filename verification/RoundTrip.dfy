/**
 What the assembler makes of the disassembler's output.

 The main result, `RoundTrip`, says for every table of the debugger's shape, every matching
 instruction word, every address and every radix exactly when assembling the printed line
 gives the word back.
 */
module RoundTrip {
  import opened Basics
  import opened Words
  import opened Opcodes
  import opened Operands
  import opened Text
  import opened Disassembler
  import opened Assembler

  // ---------------------------------------------------------------------------------
  // Tables of the debugger's shape

  function At(t: Tables, op: Opcode, k: nat): Operand
    requires ValidFields(t.operands, op.fields) && k < |op.fields|
  {
    t.operands[op.fields[k] - 1]
  }

  function KindAt(t: Tables, op: Opcode, k: nat): Kind
    requires ValidFields(t.operands, op.fields) && k < |op.fields|
  {
    KindOf(At(t, op, k))
  }

  /** The operands from field `k` on that are printed. */
  function Visible(t: Tables, op: Opcode, k: nat): (ops: seq<Operand>)
    requires ValidFields(t.operands, op.fields) && k <= |op.fields|
    ensures AllValid(ops)
    decreases |op.fields| - k
  {
    if k == |op.fields| then []
    else if KindAt(t, op, k) == Silent then Visible(t, op, k + 1)
    else [At(t, op, k)] + Visible(t, op, k + 1)
  }

  predicate LowerWord(name: string)
  {
    IsWord(name) && forall i :: 0 <= i < |name| ==> !IsUpper(name[i])
  }

  /** A mnemonic of eight letters, one too long for its column, goes with a leading register. */
  predicate WellNamed(t: Tables, op: Opcode)
    requires ValidFields(t.operands, op.fields)
  {
    && LowerWord(op.name)
    && |op.name| <= 8
    && (|op.name| == 8 ==> op.fields != [] && KindAt(t, op, 0) == Register && At(t, op, 0).field != O_rA)
  }

  predicate WellFormedOpcode(t: Tables, op: Opcode)
  {
    && ValidFields(t.operands, op.fields)
    && OpcodeInMask(op)
    && WellNamed(t, op)
    && Separate(Visible(t, op, 0), op.mask)
    // Silent operands follow the printed ones.
    && (op.fields != [] && KindAt(t, op, 0) == Silent ==> Visible(t, op, 0) == [])
    // An offset is printed in front of one last register, as in `8(r1)`.
    && (forall k :: 0 <= k < |op.fields| && KindAt(t, op, k) == Immediate(true) ==>
          k + 2 == |op.fields| && KindAt(t, op, k + 1) == Register)
  }

  /** SPR names are words with a capital letter in them, such as "LR". */
  predicate WellFormedSpr(spr: SprInfo)
  {
    && IsWord(spr.name)
    && !IsDigit(spr.name[0])
    && exists i :: 0 <= i < |spr.name| && IsUpper(spr.name[i])
  }

  /** The simplified forms of `bc` are opcodes of the same shape, but not in the table. */
  predicate WellFormedHandlers(t: Tables)
  {
    && WellFormedOpcode(t, BLT) && WellFormedOpcode(t, BNE) && WellFormedOpcode(t, BDNZ)
    && forall i :: 0 <= i < |t.opcodes| ==>
         t.opcodes[i].name != "blt" && t.opcodes[i].name != "bne" && t.opcodes[i].name != "bdnz"
  }

  predicate WellFormed(t: Tables)
  {
    && (forall i :: 0 <= i < |t.opcodes| ==> WellFormedOpcode(t, t.opcodes[i]))
    && (forall i, j :: 0 <= i < j < |t.opcodes| ==> t.opcodes[i].name != t.opcodes[j].name)
    && (forall i :: 0 <= i < |t.sprs| ==> WellFormedSpr(t.sprs[i]))
    && (forall i :: 0 <= i < |t.opcodes| && t.opcodes[i].handler ==> WellFormedHandlers(t))
  }

  // ---------------------------------------------------------------------------------
  // One operand

  predicate SprReadable(t: Tables, v: Word)
  {
    v != 0 && LookupSpr(t.sprs, SwapHalves(v)).None?
  }

  predicate TbrReadable(v: Word)
  {
    SwapHalves(v) == 268 || SwapHalves(v) == 269
  }

  /** The value that the assembler reads for an operand that it does not reject. */
  function ReadBack(o: Operand, instr: Word, radix: Radix): Word
    requires ValidOperand(o)
  {
    if KindOf(o).Immediate? && radix == Octal then 0 else ValueIn(instr, o)
  }

  /** When the operand of an instruction survives printing and parsing. */
  predicate OperandSurvives(t: Tables, o: Operand, instr: Word, radix: Radix)
    requires ValidOperand(o)
  {
    match KindOf(o)
    case Spr => SprReadable(t, ValueIn(instr, o))
    case Tbr => TbrReadable(ValueIn(instr, o))
    case Immediate(offset) => !offset && (radix == Octal ==> ValueIn(instr, o) == 0)
    case _ => true
  }

  lemma DigitsAreWord(n: nat, base: nat)
    requires PrintBase(base)
    ensures IsWord(Digits(n, base))
  {
    var s := Digits(n, base);
    forall i | 0 <= i < |s|
      ensures !EndsWord(s[i])
    {
      assert IsXdigit(s[i]);
    }
  }

  lemma ConcatIsWord(a: string, b: string)
    requires IsWord(a) && IsWord(b)
    ensures IsWord(a + b)
  {
  }

  lemma LookupSprIsWord(sprs: seq<SprInfo>, n: Word)
    requires forall i :: 0 <= i < |sprs| ==> WellFormedSpr(sprs[i])
    ensures LookupSpr(sprs, n).Some? ==>
              exists i :: 0 <= i < |sprs| && sprs[i].name == LookupSpr(sprs, n).value
  {
    if sprs != [] && sprs[0].value != n {
      LookupSprIsWord(sprs[1..], n);
      if LookupSpr(sprs, n).Some? {
        var i :| 0 <= i < |sprs[1..]| && sprs[1..][i].name == LookupSpr(sprs, n).value;
        assert sprs[i + 1].name == LookupSpr(sprs, n).value;
      }
    } else if sprs != [] {
      assert sprs[0].name == LookupSpr(sprs, n).value;
    }
  }

  lemma RadixTextIsWord(v: Word, radix: Radix)
    ensures IsWord(RadixText(v, radix))
  {
    match radix
    case Octal => DigitsAreWord(Value(v), 8); ConcatIsWord("O", Digits(Value(v), 8));
    case UnsignedDecimal => DigitsAreWord(Value(v), 10);
    case SignedDecimal => DigitsAreWord(Value(v), 10);
    case Hex => DigitsAreWord(Value(v), 16); ConcatIsWord("0x", Digits(Value(v), 16));
  }

  lemma SprTextIsWord(t: Tables, v: Word)
    requires forall i :: 0 <= i < |t.sprs| ==> WellFormedSpr(t.sprs[i])
    ensures IsWord(SprText(t.sprs, v))
  {
    hide SwapHalves;
    LookupSprIsWord(t.sprs, SwapHalves(v));
    DigitsAreWord(Value(SwapHalves(v)), 10);
  }

  /** The text of an operand is one word for `get_word`. */
  lemma OperandTextIsWord(t: Tables, op: Opcode, o: Operand, instr: Word, virt: Word, radix: Radix)
    requires ValidOperand(o) && KindOf(o) != Silent
    requires forall i :: 0 <= i < |t.sprs| ==> WellFormedSpr(t.sprs[i])
    ensures IsWord(OperandText(t, op, o, instr, virt, radix))
  {
    hide KindOf, ValueIn, SprText, RadixText, TargetOf, PrintsZero, SwapHalves, Digits, Value;
    var v := ValueIn(instr, o);
    match KindOf(o)
    case Silent =>
    case Address =>
      var n := Value(TargetOf(instr, op, o, virt));
      DigitsAreWord(n, 16);
      ConcatIsWord("0x", Digits(n, 16));
    case Register =>
      DigitsAreWord(Value(v), 10);
      ConcatIsWord("r", Digits(Value(v), 10));
    case Spr => SprTextIsWord(t, v);
    case Tbr =>
    case Literal =>
    case Immediate(_) => RadixTextIsWord(v, radix);
  }

  lemma PlacedIsNotBad(v: Word, o: Operand)
    requires ValidOperand(o)
    ensures Placed(v, o) != BAD
  {
    InsertIsNotBad(v, o.bits, o.shift);
  }

  lemma InsertIsNotBad(v: Word, bits: Word, shift: Word)
    requires ValidField(bits, shift)
    ensures Insert(v, bits, shift) != BAD
  {
  }

  lemma FieldRange(instr: Word, o: Operand)
    requires ValidOperand(o)
    ensures InRange(ValueIn(instr, o), o)
    ensures Placed(ValueIn(instr, o), o) == Masked(instr, MaskOf(o))
  {
    hide Extract, Insert, FieldMask, Fits, KindOf;
    ExtractFits(instr, o.bits, o.shift);
    InsertExtract(instr, o.bits, o.shift);
  }

  lemma ParseAddress(t: Tables, op: Opcode, o: Operand, instr: Word, virt: Word, radix: Radix)
    requires ValidOperand(o) && KindOf(o) == Address
    ensures ParseOperand(t, virt, op, o, OperandText(t, op, o, instr, virt, radix))
         == Assembled(Placed(ValueIn(instr, o), o), 0)
  {
    hide ValueIn, Displacement, Displaced, DisplacementTo, FieldOf, Fits, Digits, Value, Placed;
    var x := ValueIn(instr, o);
    ReadHex(TargetOf(instr, op, o, virt));
    DisplacedBack(Displacement(x, o.bits), op, virt);
    FieldRange(instr, o);
    FieldOfDisplacement(x, o.bits);
  }

  lemma ParseRegister(t: Tables, op: Opcode, o: Operand, instr: Word, virt: Word, radix: Radix)
    requires ValidOperand(o) && KindOf(o) == Register
    ensures ParseOperand(t, virt, op, o, OperandText(t, op, o, instr, virt, radix))
         == Assembled(Placed(ValueIn(instr, o), o), 0)
  {
    hide ValueIn, Digits, Value, Placed, Fits, ReadNumber, SignedGreater;
    var v := ValueIn(instr, o);
    FieldRange(instr, o);
    SmallRegister(v, o.bits);
    var txt := OperandText(t, op, o, instr, virt, radix);
    if PrintsZero(op, o, v) {
      ReadZero();
      assert RegisterDigits(txt) == txt;
    } else {
      assert RegisterDigits(txt) == Digits(Value(v), 10);
      ReadDecimal(v);
    }
  }

  lemma ReadZero()
    ensures ReadNumber("0") == 0
  {
    assert "0"[1..] == "";
    assert Strtoul("0", 10) == 0;
  }

  lemma SmallRegister(v: Word, bits: Word)
    requires bits <= 5 && Fits(v, bits)
    ensures !SignedGreater(v, 31)
  {
  }

  lemma {:induction false} NoSuchSpr(sprs: seq<SprInfo>, name: string)
    requires forall i :: 0 <= i < |sprs| ==> WellFormedSpr(sprs[i])
    requires forall i :: 0 <= i < |name| ==> !IsUpper(name[i])
    ensures SprNumber(sprs, name).None?
  {
    if sprs != [] {
      assert WellFormedSpr(sprs[0]);
      NoSuchSpr(sprs[1..], name);
    }
  }

  /** A named SPR is printed in capitals but looked up in lower case: it is never found. */
  lemma NamedSprIsLost(t: Tables, name: string)
    requires forall i :: 0 <= i < |t.sprs| ==> WellFormedSpr(t.sprs[i])
    requires name != "" && !IsDigit(name[0])
    ensures SprFieldOf(t.sprs, name) == 0
  {
    NoSuchSpr(t.sprs, Lowered(name));
  }

  lemma ParseSpr(t: Tables, op: Opcode, o: Operand, instr: Word, virt: Word, radix: Radix)
    requires ValidOperand(o) && KindOf(o) == Spr
    requires forall i :: 0 <= i < |t.sprs| ==> WellFormedSpr(t.sprs[i])
    ensures ParseOperand(t, virt, op, o, OperandText(t, op, o, instr, virt, radix))
         == if SprReadable(t, ValueIn(instr, o)) then Assembled(Placed(ValueIn(instr, o), o), 0)
            else Assembled(BAD, E_ASM_BAD_SPR)
  {
    hide ValueIn, Digits, Value, Placed, Fits, SwapHalves, ReadNumber;
    var v := ValueIn(instr, o);
    var number := SwapHalves(v);
    FieldRange(instr, o);
    SwapTwice(v);
    LookupSprIsWord(t.sprs, number);
    match LookupSpr(t.sprs, number)
    case Some(name) =>
      NamedSprIsLost(t, name);
    case None =>
      var s := Digits(Value(number), 10);
      assert IsXdigit(s[0]) && DigitValue(s[0]) < 10;
      assert IsDigit(s[0]);
      ReadDecimal(number);
  }

  lemma TbrTexts()
    ensures TbrFieldOf("TBL") == SwapHalves(268) != 0
    ensures TbrFieldOf("TBU") == SwapHalves(269) != 0
    ensures TbrFieldOf("???") == 0
  {
    assert Lowered("TBL") == "tbl";
    assert Lowered("TBU") == "tbu";
    assert Lowered("???") == "???";
  }

  lemma ParseTbr(t: Tables, op: Opcode, o: Operand, instr: Word, virt: Word, radix: Radix)
    requires ValidOperand(o) && KindOf(o) == Tbr
    ensures ParseOperand(t, virt, op, o, OperandText(t, op, o, instr, virt, radix))
         == if TbrReadable(ValueIn(instr, o)) then Assembled(Placed(ValueIn(instr, o), o), 0)
            else Assembled(BAD, E_ASM_BAD_TBR)
  {
    hide ValueIn, Placed, Fits, SwapHalves, TbrFieldOf;
    var v := ValueIn(instr, o);
    FieldRange(instr, o);
    SwapTwice(v);
    TbrTexts();
  }

  lemma ReadRadix(v: Word, radix: Radix)
    ensures ReadNumber(RadixText(v, radix)) == if radix == Octal then 0 else v
  {
    hide Digits, Value, ReadNumber;
    match radix
    case Octal => ReadOctal(Digits(Value(v), 8));
    case UnsignedDecimal => ReadDecimal(v);
    case SignedDecimal => ReadDecimal(v);
    case Hex => ReadHex(v);
  }

  lemma ParseImmediate(t: Tables, op: Opcode, o: Operand, instr: Word, virt: Word, radix: Radix)
    requires ValidOperand(o) && KindOf(o).Immediate?
    ensures ParseOperand(t, virt, op, o, OperandText(t, op, o, instr, virt, radix))
         == Assembled(Placed(ReadBack(o, instr, radix), o), 0)
  {
    hide ValueIn, RadixText, Placed, ReadNumber, KindOf;
    ReadRadix(ValueIn(instr, o), radix);
  }

  lemma NoBits(v: Word, w: Word, shift: Word)
    requires shift <= 31
    ensures Insert(v, 0, shift) == Insert(w, 0, shift)
  {
  }

  lemma ParseLiteral(t: Tables, op: Opcode, o: Operand, instr: Word, virt: Word, radix: Radix)
    requires ValidOperand(o) && KindOf(o) == Literal
    ensures ParseOperand(t, virt, op, o, OperandText(t, op, o, instr, virt, radix))
         == Assembled(Placed(ValueIn(instr, o), o), 0)
  {
    hide ValueIn, ReadNumber, Insert;
    NoBits(ReadNumber("cr2"), ValueIn(instr, o), o.shift);
  }

  /** What `parse_operand` makes of any printed operand. */
  function Reparsed(t: Tables, o: Operand, instr: Word, radix: Radix): Assembled
    requires ValidOperand(o)
  {
    var v := ValueIn(instr, o);
    if KindOf(o) == Spr && !SprReadable(t, v) then Assembled(BAD, E_ASM_BAD_SPR)
    else if KindOf(o) == Tbr && !TbrReadable(v) then Assembled(BAD, E_ASM_BAD_TBR)
    else Assembled(Placed(ReadBack(o, instr, radix), o), 0)
  }

  lemma ParseOperandText(t: Tables, op: Opcode, o: Operand, instr: Word, virt: Word, radix: Radix)
    requires ValidOperand(o) && KindOf(o) != Silent
    requires forall i :: 0 <= i < |t.sprs| ==> WellFormedSpr(t.sprs[i])
    ensures ParseOperand(t, virt, op, o, OperandText(t, op, o, instr, virt, radix))
         == Reparsed(t, o, instr, radix)
  {
    hide ValueIn, ParseOperand, OperandText, SprReadable, TbrReadable, Placed;
    match KindOf(o)
    case Silent =>
    case Address => ParseAddress(t, op, o, instr, virt, radix);
    case Register => ParseRegister(t, op, o, instr, virt, radix);
    case Spr => ParseSpr(t, op, o, instr, virt, radix);
    case Tbr => ParseTbr(t, op, o, instr, virt, radix);
    case Literal => ParseLiteral(t, op, o, instr, virt, radix);
    case Immediate(_) => ParseImmediate(t, op, o, instr, virt, radix);
  }

  // ---------------------------------------------------------------------------------
  // The printed line

  function TextAt(t: Tables, op: Opcode, instr: Word, virt: Word, radix: Radix, k: nat): string
    requires ValidFields(t.operands, op.fields) && k < |op.fields|
  {
    OperandText(t, op, At(t, op, k), instr, virt, radix)
  }

  function Comma(k: nat): string
  {
    if k > 0 then "," else ""
  }

  /** The operands from field `k` on, as they are printed while the buffer length is right. */
  function TailText(t: Tables, op: Opcode, instr: Word, virt: Word, radix: Radix, k: nat): string
    requires ValidFields(t.operands, op.fields) && k <= |op.fields|
    decreases |op.fields| - k
  {
    if k == |op.fields| then ""
    else if KindAt(t, op, k) == Silent then TailText(t, op, instr, virt, radix, k + 1)
    else if KindAt(t, op, k) == Immediate(true) && k + 1 < |op.fields| then
      Comma(k) + (TextAt(t, op, instr, virt, radix, k) + "(" + TextAt(t, op, instr, virt, radix, k + 1) + ")")
    else
      Comma(k) + (TextAt(t, op, instr, virt, radix, k) + TailText(t, op, instr, virt, radix, k + 1))
  }

  lemma PrintOnePlain(data: string, k: nat, kind: Kind, sprintf: bool, text: string)
    ensures PrintOne(Pen(Line(data, |data|), 0), k, kind, sprintf, text) ==
            var d := data + (Comma(k) + text);
            if kind == Immediate(true) then Pen(Line(d + "(", |d| + 1), 1) else Pen(Line(d, |d|), 0)
  {
    var l := Separated(Pen(Line(data, |data|), 0), k);
    assert l.data == data + Comma(k) && l.datalen == |l.data|;
    assert l.data[..l.datalen] == l.data;
    assert l.data + text == data + (Comma(k) + text);
  }

  lemma PrintOneInParens(data: string, k: nat, sprintf: bool, text: string)
    ensures PrintOne(Pen(Line(data, |data|), 1), k, Register, sprintf, text)
         == Pen(Line(data + text + ")", |data| + |text| + 1), 0)
  {
    assert data[..|data|] == data;
  }

  lemma ConcatTail(data: string, comma: string, text: string, tail: string)
    ensures data + (comma + text) + tail == data + (comma + (text + tail))
  {
  }

  lemma ConcatOffset(data: string, comma: string, text: string, reg: string)
    ensures data + (comma + text) + "(" + reg + ")" == data + (comma + (text + "(" + reg + ")"))
  {
  }

  lemma FieldsAreValid(t: Tables, op: Opcode)
    requires WellFormedOpcode(t, op)
    ensures ValidFields(t.operands, op.fields)
  {
  }

  lemma OffsetBeforeRegister(t: Tables, op: Opcode, k: nat)
    requires WellFormedOpcode(t, op) && k < |op.fields| && KindAt(t, op, k) == Immediate(true)
    ensures k + 2 == |op.fields| && KindAt(t, op, k + 1) == Register
  {
    hide KindOf, OpcodeInMask, Separate, WellNamed, Visible;
  }

  lemma PrintStep(t: Tables, op: Opcode, instr: Word, virt: Word, radix: Radix, k: nat, data: string)
    requires ValidFields(t.operands, op.fields) && k < |op.fields|
    requires KindAt(t, op, k) != Silent && KindAt(t, op, k) != Immediate(true)
    ensures var d := data + (Comma(k) + TextAt(t, op, instr, virt, radix, k));
            PrintFrom(t, op, instr, virt, radix, k, Pen(Line(data, |data|), 0))
            == PrintFrom(t, op, instr, virt, radix, k + 1, Pen(Line(d, |d|), 0))
  {
    hide OperandText, UsesSprintf, ValueIn, KindOf, PrintOne, Comma;
    var o := At(t, op, k);
    PrintOnePlain(data, k, KindOf(o), UsesSprintf(op, o, ValueIn(instr, o)), TextAt(t, op, instr, virt, radix, k));
  }

  lemma PrintOffsetStep(t: Tables, op: Opcode, instr: Word, virt: Word, radix: Radix, k: nat, data: string)
    requires ValidFields(t.operands, op.fields) && k + 2 == |op.fields|
    requires KindAt(t, op, k) == Immediate(true) && KindAt(t, op, k + 1) == Register
    ensures PrintFrom(t, op, instr, virt, radix, k, Pen(Line(data, |data|), 0)).line.data
         == data + TailText(t, op, instr, virt, radix, k)
  {
    hide OperandText, UsesSprintf, ValueIn, KindOf, PrintOne, Comma;
    var o := At(t, op, k);
    var text := TextAt(t, op, instr, virt, radix, k);
    PrintOnePlain(data, k, KindOf(o), UsesSprintf(op, o, ValueIn(instr, o)), text);
    PrintOffset(t, op, instr, virt, radix, k + 1, data + (Comma(k) + text) + "(");
    ConcatOffset(data, Comma(k), text, TextAt(t, op, instr, virt, radix, k + 1));
  }

  /** While the remembered length is right, printing appends the operands to the line. */
  lemma {:induction false} PrintIsTail(
    t: Tables, op: Opcode, instr: Word, virt: Word, radix: Radix, k: nat, data: string)
    requires WellFormedOpcode(t, op) && k <= |op.fields|
    ensures PrintFrom(t, op, instr, virt, radix, k, Pen(Line(data, |data|), 0)).line.data
         == data + TailText(t, op, instr, virt, radix, k)
    decreases |op.fields| - k
  {
    hide OperandText, UsesSprintf, ValueIn, KindOf, PrintOne, WellFormedOpcode, ValidFields, TextAt, Comma;
    FieldsAreValid(t, op);
    if k == |op.fields| {
      assert data + "" == data;
    } else if KindAt(t, op, k) == Silent {
      PrintIsTail(t, op, instr, virt, radix, k + 1, data);
    } else if KindAt(t, op, k) == Immediate(true) {
      OffsetBeforeRegister(t, op, k);
      PrintOffsetStep(t, op, instr, virt, radix, k, data);
    } else {
      var text := TextAt(t, op, instr, virt, radix, k);
      PrintStep(t, op, instr, virt, radix, k, data);
      PrintIsTail(t, op, instr, virt, radix, k + 1, data + (Comma(k) + text));
      ConcatTail(data, Comma(k), text, TailText(t, op, instr, virt, radix, k + 1));
    }
  }

  lemma PrintOffset(t: Tables, op: Opcode, instr: Word, virt: Word, radix: Radix, k: nat, data: string)
    requires ValidFields(t.operands, op.fields)
    requires k + 1 == |op.fields| && KindAt(t, op, k) == Register
    ensures PrintFrom(t, op, instr, virt, radix, k, Pen(Line(data, |data|), 1)).line.data
         == data + TextAt(t, op, instr, virt, radix, k) + ")"
  {
    hide OperandText, UsesSprintf, ValueIn, KindOf, PrintOne;
    var o := At(t, op, k);
    PrintOneInParens(data, k, UsesSprintf(op, o, ValueIn(instr, o)), TextAt(t, op, instr, virt, radix, k));
  }

  function Uncomma(s: string): string
  {
    if s != "" && s[0] == ',' then s[1..] else s
  }

  lemma {:induction false} TailStartsWithComma(
    t: Tables, op: Opcode, instr: Word, virt: Word, radix: Radix, k: nat)
    requires ValidFields(t.operands, op.fields) && 1 <= k <= |op.fields|
    ensures var tail := TailText(t, op, instr, virt, radix, k); tail == "" || tail[0] == ','
    decreases |op.fields| - k
  {
    hide OperandText, KindOf;
    if k < |op.fields| && KindAt(t, op, k) == Silent {
      TailStartsWithComma(t, op, instr, virt, radix, k + 1);
    }
  }

  /** What the assembler makes of the operands from field `k` on. */
  function Reassembled(t: Tables, op: Opcode, instr: Word, radix: Radix, k: nat, word: Word): Assembled
    requires ValidFields(t.operands, op.fields) && k <= |op.fields|
    decreases |op.fields| - k
  {
    if k == |op.fields| then Assembled(word, 0)
    else
      var o := At(t, op, k);
      if KindOf(o) == Silent then Reassembled(t, op, instr, radix, k + 1, word)
      else if KindOf(o) == Immediate(true) then Assembled(0, E_ASM_NUM_OPERANDS)
      else
        var p := Reparsed(t, o, instr, radix);
        if p.word == BAD then Assembled(0, p.err)
        else Reassembled(t, op, instr, radix, k + 1, Union(word, p.word))
  }

  lemma UncommaTail(k: nat, text: string, rest: string)
    requires IsWord(text)
    ensures Uncomma(Comma(k) + (text + rest)) == text + rest
  {
    var s := text + rest;
    if k > 0 {
      assert (Comma(k) + s)[1..] == s;
    } else {
      assert Comma(k) + s == s;
      assert s[0] == text[0];
    }
  }

  lemma ParseImmediateIsNotBad(t: Tables, memaddr: Word, op: Opcode, o: Operand, txt: string)
    requires ValidOperand(o) && KindOf(o).Immediate?
    ensures ParseOperand(t, memaddr, op, o, txt).word != BAD
  {
    PlacedIsNotBad(ReadNumber(txt), o);
  }

  /** The assembler takes one printed operand off the line. */
  lemma AssembleOperand(t: Tables, op: Opcode, instr: Word, virt: Word, radix: Radix, k: nat, word: Word)
    requires ValidFields(t.operands, op.fields) && k < |op.fields|
    requires KindAt(t, op, k) != Silent && KindAt(t, op, k) != Immediate(true)
    requires forall i :: 0 <= i < |t.sprs| ==> WellFormedSpr(t.sprs[i])
    ensures var p := Reparsed(t, At(t, op, k), instr, radix);
            AssembleFrom(t, virt, op, k, word, Uncomma(TailText(t, op, instr, virt, radix, k))) ==
            if p.word == BAD then Assembled(0, p.err)
            else AssembleFrom(t, virt, op, k + 1, Union(word, p.word), Uncomma(TailText(t, op, instr, virt, radix, k + 1)))
  {
    hide OperandText, KindOf, ParseOperand, Reparsed, Union, WellFormedSpr, GetWordSpec, IsWord, Comma, ValidOperand;
    var o := At(t, op, k);
    var text, tail := TextAt(t, op, instr, virt, radix, k), TailText(t, op, instr, virt, radix, k + 1);
    OperandTextIsWord(t, op, o, instr, virt, radix);
    TailStartsWithComma(t, op, instr, virt, radix, k + 1);
    UncommaTail(k, text, tail);
    GetWordOf(text, tail);
    WordIsNotEmpty(text);
    ParseOperandText(t, op, o, instr, virt, radix);
  }

  lemma {:induction false} AssembleTail(
    t: Tables, op: Opcode, instr: Word, virt: Word, radix: Radix, k: nat, word: Word)
    requires WellFormedOpcode(t, op) && k <= |op.fields|
    requires forall i :: 0 <= i < |t.sprs| ==> WellFormedSpr(t.sprs[i])
    ensures AssembleFrom(t, virt, op, k, word, Uncomma(TailText(t, op, instr, virt, radix, k)))
         == Reassembled(t, op, instr, radix, k, word)
    decreases |op.fields| - k
  {
    hide KindOf, Reparsed, Union, WellFormedOpcode, WellFormedSpr, GetWordSpec, Uncomma, ValidFields, TextAt, Comma,
      ParseOperand;
    FieldsAreValid(t, op);
    if k == |op.fields| {
    } else if KindAt(t, op, k) == Silent {
      AssembleTail(t, op, instr, virt, radix, k + 1, word);
    } else if KindAt(t, op, k) == Immediate(true) {
      OffsetBeforeRegister(t, op, k);
      AssembleOffset(t, op, instr, virt, radix, k, word);
    } else {
      AssembleOperand(t, op, instr, virt, radix, k, word);
      AssembleTail(t, op, instr, virt, radix, k + 1, Union(word, Reparsed(t, At(t, op, k), instr, radix).word));
    }
  }

  lemma WordIsNotEmpty(text: string)
    requires IsWord(text)
    ensures text != ""
  {
  }

  lemma OffsetIsWord(text: string, reg: string)
    requires IsWord(text) && IsWord(reg)
    ensures IsWord(text + "(" + reg + ")")
  {
  }

  /** `8(r1)` is one word, so the register that should follow is missing. */
  lemma AssembleOffset(t: Tables, op: Opcode, instr: Word, virt: Word, radix: Radix, k: nat, word: Word)
    requires ValidFields(t.operands, op.fields)
    requires k + 2 == |op.fields| && KindAt(t, op, k) == Immediate(true) && KindAt(t, op, k + 1) == Register
    requires forall i :: 0 <= i < |t.sprs| ==> WellFormedSpr(t.sprs[i])
    ensures AssembleFrom(t, virt, op, k, word, Uncomma(TailText(t, op, instr, virt, radix, k)))
         == Assembled(0, E_ASM_NUM_OPERANDS)
  {
    hide OperandText, KindOf, ParseOperand, Union, WellFormedSpr, GetWordSpec, IsWord, Uncomma, Comma;
    var text, reg := TextAt(t, op, instr, virt, radix, k), TextAt(t, op, instr, virt, radix, k + 1);
    OperandTextIsWord(t, op, At(t, op, k), instr, virt, radix);
    OperandTextIsWord(t, op, At(t, op, k + 1), instr, virt, radix);
    OffsetIsWord(text, reg);
    var whole := text + "(" + reg + ")";
    WordIsNotEmpty(whole);
    UncommaTail(k, whole, "");
    assert whole + "" == whole;
    GetWordOf(whole, "");
    ParseImmediateIsNotBad(t, virt, op, At(t, op, k), whole);
    GetWordOfNothing();
  }

  lemma GetWordOfNothing()
    ensures GetWordSpec("") == ("", "")
  {
  }

  lemma {:induction false} AssembleSkipsSpaces(
    t: Tables, memaddr: Word, op: Opcode, k: nat, word: Word, n: nat, src: string)
    requires ValidFields(t.operands, op.fields) && k <= |op.fields|
    ensures AssembleFrom(t, memaddr, op, k, word, Spaces(n) + src) == AssembleFrom(t, memaddr, op, k, word, src)
    decreases |op.fields| - k
  {
    hide KindOf, ParseOperand, Union, GetWordSpec;
    GetWordSkipsSpaces(n, src);
    if k < |op.fields| && KindOf(t.operands[op.fields[k] - 1]) == Silent {
      AssembleSkipsSpaces(t, memaddr, op, k + 1, word, n, src);
    }
  }

  // ---------------------------------------------------------------------------------
  // The whole line

  lemma TailStartsClean(t: Tables, op: Opcode, instr: Word, virt: Word, radix: Radix)
    requires WellFormedOpcode(t, op)
    requires forall i :: 0 <= i < |t.sprs| ==> WellFormedSpr(t.sprs[i])
    ensures var tail := TailText(t, op, instr, virt, radix, 0); Uncomma(tail) == tail
  {
    hide OperandText, KindOf, WellFormedSpr, IsWord, OpcodeInMask, Separate, WellNamed;
    if op.fields != [] {
      if KindAt(t, op, 0) == Silent {
        NothingVisible(t, op, instr, virt, radix, 0);
      } else {
        OperandTextIsWord(t, op, At(t, op, 0), instr, virt, radix);
        WordStartsClean(TextAt(t, op, instr, virt, radix, 0));
      }
    }
  }

  lemma WordStartsClean(text: string)
    requires IsWord(text)
    ensures text != "" && text[0] != ','
  {
  }

  lemma {:induction false} NothingVisible(
    t: Tables, op: Opcode, instr: Word, virt: Word, radix: Radix, k: nat)
    requires ValidFields(t.operands, op.fields) && k <= |op.fields|
    requires Visible(t, op, k) == []
    ensures TailText(t, op, instr, virt, radix, k) == ""
    decreases |op.fields| - k
  {
    hide OperandText, KindOf;
    if k < |op.fields| {
      NothingVisible(t, op, instr, virt, radix, k + 1);
    }
  }

  lemma NameFound(t: Tables, i: nat)
    requires WellFormed(t) && i < |t.opcodes|
    ensures NameIndex(t.opcodes, Lowered(t.opcodes[i].name)) == Some(i)
  {
    hide WellFormedSpr, OpcodeInMask, Separate, ValidFields;
    var name := t.opcodes[i].name;
    assert WellFormedOpcode(t, t.opcodes[i]);
    LoweredIsSame(name);
  }

  lemma WellFormedHasValidFields(t: Tables)
    requires WellFormed(t)
    ensures AllFieldsValid(t) && HandlersValid(t)
  {
    hide OpcodeInMask, Separate, WellNamed, WellFormedSpr, ValidFields;
    forall i | 0 <= i < |t.opcodes|
      ensures ValidFields(t.operands, t.opcodes[i].fields)
    {
      assert WellFormedOpcode(t, t.opcodes[i]);
    }
  }

  /** The first word of a printed instruction is its mnemonic, if that fits its column. */
  lemma FirstWord(t: Tables, op: Opcode, instr: Word, virt: Word, radix: Radix)
    requires WellFormedOpcode(t, op) && |op.name| <= 7
    ensures var rest := Spaces(8 - |op.name|) + TailText(t, op, instr, virt, radix, 0);
            GetWordSpec(InstructionText(t, op, instr, virt, radix)) == (op.name, rest)
  {
    hide OperandText, KindOf, OpcodeInMask, Separate, ValidFields, PrintFrom, TailText, GetWordSpec;
    var pad, tail := Spaces(8 - |op.name|), TailText(t, op, instr, virt, radix, 0);
    assert Mnemonic(op.name) == op.name + pad;
    PrintIsTail(t, op, instr, virt, radix, 0, Mnemonic(op.name));
    assert op.name + pad + tail == op.name + (pad + tail);
    assert (pad + tail)[0] == ' ';
    GetWordOf(op.name, pad + tail);
  }

  /** A simplified form is printed with a mnemonic that the assembler does not know. */
  lemma SimplifiedIsLost(t: Tables, op: Opcode, instr: Word, virt: Word, radix: Radix)
    requires AllFieldsValid(t) && WellFormedOpcode(t, op) && |op.name| <= 7
    requires forall i :: 0 <= i < |t.opcodes| ==> t.opcodes[i].name != op.name
    ensures Assemble(t, virt, InstructionText(t, op, instr, virt, radix)) == Assembled(0, E_ASM_BAD_OPCODE)
  {
    hide InstructionText, TailText, OpcodeInMask, Separate, ValidFields, GetWordSpec, Lowered, AssembleFrom, NameIndex;
    FirstWord(t, op, instr, virt, radix);
    LoweredIsSame(op.name);
  }

  /** A mnemonic that fits its column: the assembler sees the operands one by one. */
  lemma AssembleShortName(t: Tables, i: nat, instr: Word, virt: Word, radix: Radix)
    requires WellFormed(t) && AllFieldsValid(t) && i < |t.opcodes| && |t.opcodes[i].name| <= 7
    ensures Assemble(t, virt, InstructionText(t, t.opcodes[i], instr, virt, radix))
         == Reassembled(t, t.opcodes[i], instr, radix, 0, t.opcodes[i].opcode)
  {
    hide InstructionText, KindOf, WellFormedSpr, OpcodeInMask, Separate, ValidFields, TailText, AssembleFrom, Reassembled,
      GetWordSpec, Lowered, NameIndex, WellFormedHandlers;
    var op := t.opcodes[i];
    assert WellFormedOpcode(t, op);
    FirstWord(t, op, instr, virt, radix);
    NameFound(t, i);
    AssembleSkipsSpaces(t, virt, op, 0, op.opcode, 8 - |op.name|, TailText(t, op, instr, virt, radix, 0));
    TailStartsClean(t, op, instr, virt, radix);
    AssembleTail(t, op, instr, virt, radix, 0, op.opcode);
  }

  lemma LongNamePrinting(t: Tables, op: Opcode, instr: Word, virt: Word, radix: Radix)
    requires WellFormedOpcode(t, op) && |op.name| == 8
    ensures InstructionText(t, op, instr, virt, radix)
         == op.name + TextAt(t, op, instr, virt, radix, 0) + TailText(t, op, instr, virt, radix, 1)
  {
    hide OperandText, OpcodeInMask, Separate, TailText, PrintFrom, ValueIn;
    var o := At(t, op, 0);
    var text := TextAt(t, op, instr, virt, radix, 0);
    assert UsesSprintf(op, o, ValueIn(instr, o));
    var pen := Pen(Line(Mnemonic(op.name), 8), 0);
    assert Mnemonic(op.name)[..8] == op.name;
    var d := op.name + text;
    assert PrintOne(pen, 0, Register, true, text) == Pen(Line(d, |d|), 0);
    PrintFirst(t, op, instr, virt, radix, pen);
    PrintIsTail(t, op, instr, virt, radix, 1, d);
  }

  lemma PrintFirst(t: Tables, op: Opcode, instr: Word, virt: Word, radix: Radix, pen: Pen)
    requires ValidFields(t.operands, op.fields) && op.fields != [] && KindAt(t, op, 0) != Silent
    ensures PrintFrom(t, op, instr, virt, radix, 0, pen) ==
            var o := At(t, op, 0);
            PrintFrom(t, op, instr, virt, radix, 1,
                      PrintOne(pen, 0, KindOf(o), UsesSprintf(op, o, ValueIn(instr, o)),
                               TextAt(t, op, instr, virt, radix, 0)))
  {
  }

  /** A mnemonic one letter too long runs into its first operand and is not recognised. */
  lemma AssembleLongName(t: Tables, i: nat, instr: Word, virt: Word, radix: Radix)
    requires WellFormed(t) && AllFieldsValid(t) && i < |t.opcodes| && |t.opcodes[i].name| == 8
    ensures Assemble(t, virt, InstructionText(t, t.opcodes[i], instr, virt, radix))
         == Assembled(0, E_ASM_BAD_OPCODE)
  {
    hide OperandText, KindOf, OpcodeInMask, Separate, TailText, AssembleFrom, GetWordSpec,
      InstructionText, WellFormedSpr;
    var op := t.opcodes[i];
    assert WellFormedOpcode(t, op);
    LongNamePrinting(t, op, instr, virt, radix);
    var text, tail := TextAt(t, op, instr, virt, radix, 0), TailText(t, op, instr, virt, radix, 1);
    OperandTextIsWord(t, op, At(t, op, 0), instr, virt, radix);
    ConcatIsWord(op.name, text);
    TailStartsWithComma(t, op, instr, virt, radix, 1);
    GetWordOf(op.name + text, tail);
    forall j | 0 <= j < |t.opcodes|
      ensures t.opcodes[j].name != Lowered(op.name + text)
    {
      assert WellFormedOpcode(t, t.opcodes[j]);
    }
  }

  // ---------------------------------------------------------------------------------
  // When the word comes back

  predicate Rejected(t: Tables, o: Operand, instr: Word)
    requires ValidOperand(o)
  {
    match KindOf(o)
    case Spr => !SprReadable(t, ValueIn(instr, o))
    case Tbr => !TbrReadable(ValueIn(instr, o))
    case Immediate(offset) => offset
    case _ => false
  }

  function ReadBacks(ops: seq<Operand>, instr: Word, radix: Radix): (values: seq<Word>)
    requires AllValid(ops)
    ensures |values| == |ops|
    ensures forall k :: 0 <= k < |ops| ==> values[k] == ReadBack(ops[k], instr, radix)
  {
    if ops == [] then [] else [ReadBack(ops[0], instr, radix)] + ReadBacks(ops[1..], instr, radix)
  }

  predicate NoneRejected(t: Tables, ops: seq<Operand>, instr: Word)
    requires AllValid(ops)
  {
    forall k :: 0 <= k < |ops| ==> !Rejected(t, ops[k], instr)
  }

  lemma ReparsedCases(t: Tables, o: Operand, instr: Word, radix: Radix)
    requires ValidOperand(o) && KindOf(o) != Silent && KindOf(o) != Immediate(true)
    ensures Rejected(t, o, instr) ==>
              Reparsed(t, o, instr, radix).word == BAD && Reparsed(t, o, instr, radix).err != 0
    ensures !Rejected(t, o, instr) ==>
              && Reparsed(t, o, instr, radix) == Assembled(Placed(ReadBack(o, instr, radix), o), 0)
              && Reparsed(t, o, instr, radix).word != BAD
  {
    hide SprReadable, TbrReadable, ValueIn, Placed;
    PlacedIsNotBad(ReadBack(o, instr, radix), o);
  }

  lemma EncodeNext(word: Word, ops: seq<Operand>, instr: Word, radix: Radix)
    requires AllValid(ops) && ops != []
    ensures Encode(word, ops, ReadBacks(ops, instr, radix)) ==
            Encode(Union(word, Placed(ReadBack(ops[0], instr, radix), ops[0])), ops[1..], ReadBacks(ops[1..], instr, radix))
  {
    hide ReadBack, Placed, Union, ValidOperand;
  }

  /** An error if some operand is rejected, and otherwise the encoding of what was read. */
  lemma {:induction false} ReassembledIsEncoding(
    t: Tables, op: Opcode, instr: Word, radix: Radix, k: nat, word: Word)
    requires ValidFields(t.operands, op.fields) && k <= |op.fields|
    ensures var ops := Visible(t, op, k);
            var r := Reassembled(t, op, instr, radix, k, word);
            if NoneRejected(t, ops, instr) then r == Assembled(Encode(word, ops, ReadBacks(ops, instr, radix)), 0)
            else r.err != 0
    decreases |op.fields| - k
  {
    hide Rejected, NoneRejected, Reparsed, ReadBack, ReadBacks, Encode, Placed, Union;
    var ops := Visible(t, op, k);
    if k == |op.fields| {
      NothingToEncode(t, word, instr, radix);
    } else if KindAt(t, op, k) == Silent {
      ReassembledIsEncoding(t, op, instr, radix, k + 1, word);
    } else {
      var o, rest := At(t, op, k), Visible(t, op, k + 1);
      assert ops[0] == o && ops[1..] == rest;
      SplitRejected(t, ops, instr);
      RejectedOffset(t, o, instr);
      if KindOf(o) != Immediate(true) {
        ReparsedCases(t, o, instr, radix);
        EncodeNext(word, ops, instr, radix);
        ReassembledIsEncoding(t, op, instr, radix, k + 1, Union(word, Placed(ReadBack(o, instr, radix), o)));
      }
    }
  }

  lemma NothingToEncode(t: Tables, word: Word, instr: Word, radix: Radix)
    ensures NoneRejected(t, [], instr) && Encode(word, [], ReadBacks([], instr, radix)) == word
  {
  }

  lemma RejectedOffset(t: Tables, o: Operand, instr: Word)
    requires ValidOperand(o)
    ensures KindOf(o) == Immediate(true) ==> Rejected(t, o, instr)
  {
    hide SprReadable, TbrReadable;
  }

  lemma SplitRejected(t: Tables, ops: seq<Operand>, instr: Word)
    requires AllValid(ops) && ops != []
    ensures NoneRejected(t, ops, instr) <==> !Rejected(t, ops[0], instr) && NoneRejected(t, ops[1..], instr)
  {
    hide Rejected;
    if !Rejected(t, ops[0], instr) && NoneRejected(t, ops[1..], instr) {
      forall k | 0 <= k < |ops|
        ensures !Rejected(t, ops[k], instr)
      {
        if k > 0 {
          assert ops[k] == ops[1..][k - 1];
        }
      }
    }
  }

  /** Every bit of the word is opcode or a printed operand. */
  predicate AllBitsPrinted(t: Tables, op: Opcode, instr: Word)
    requires ValidFields(t.operands, op.fields)
  {
    SubMask(instr, Union(op.mask, MaskOfAll(Visible(t, op, 0))))
  }

  predicate ReadRight(ops: seq<Operand>, instr: Word, radix: Radix)
    requires AllValid(ops)
  {
    forall k :: 0 <= k < |ops| ==> ReadBack(ops[k], instr, radix) == ValueIn(instr, ops[k])
  }

  predicate AllSurvive(t: Tables, ops: seq<Operand>, instr: Word, radix: Radix)
    requires AllValid(ops)
  {
    forall k :: 0 <= k < |ops| ==> OperandSurvives(t, ops[k], instr, radix)
  }

  /**
   The condition under which a disassembled instruction assembles to itself: its mnemonic fits
   the column, no bit of the word is left unprinted, and every operand survives.
   */
  predicate Survives(t: Tables, op: Opcode, instr: Word, radix: Radix)
    requires ValidFields(t.operands, op.fields)
  {
    && |op.name| <= 7
    && AllBitsPrinted(t, op, instr)
    && AllSurvive(t, Visible(t, op, 0), instr, radix)
  }

  lemma SurvivesCases(t: Tables, o: Operand, instr: Word, radix: Radix)
    requires ValidOperand(o)
    ensures OperandSurvives(t, o, instr, radix) <==>
              !Rejected(t, o, instr) && ReadBack(o, instr, radix) == ValueIn(instr, o)
  {
    hide SprReadable, TbrReadable, ValueIn;
  }

  lemma UnionCoversWord(instr: Word, mask: Word, fields: Word)
    ensures Union(Masked(instr, mask), Masked(instr, fields)) == instr <==> SubMask(instr, Union(mask, fields))
  {
    hide Union, Masked, SubMask;
    MasksOfUnion(instr, mask, fields);
    MaskedIsWhole(instr, Union(mask, fields));
  }

  lemma MasksOfUnion(w: Word, a: Word, b: Word)
    ensures Union(Masked(w, a), Masked(w, b)) == Masked(w, Union(a, b))
  {
    hide Union, Masked;
    UnionOfMasks(w, 0, a, b);
    UnionWithZero(Masked(w, a));
    UnionWithZero(Masked(w, Union(a, b)));
  }

  lemma UnionWithZero(x: Word)
    ensures Union(0, x) == x
  {
  }

  lemma MaskedIsWhole(w: Word, a: Word)
    ensures Masked(w, a) == w <==> SubMask(w, a)
  {
  }

  /** Reading every operand right gives the word back exactly when all its bits were printed. */
  lemma EncodingOfWord(t: Tables, op: Opcode, instr: Word, radix: Radix, ops: seq<Operand>)
    requires WellFormedOpcode(t, op) && Matches(instr, op) && ops == Visible(t, op, 0)
    requires ReadRight(ops, instr, radix)
    ensures Encode(op.opcode, ops, ReadBacks(ops, instr, radix)) == instr <==> AllBitsPrinted(t, op, instr)
  {
    hide ReadBack, ValueIn, Placed, Masked, SubMask, Union, Encode, MaskOfAll, MaskOf, Less,
      OpcodeInMask, Separate, WellNamed;
    var values := ReadBacks(ops, instr, radix);
    forall k | 0 <= k < |ops|
      ensures Placed(values[k], ops[k]) == Masked(instr, MaskOf(ops[k]))
    {
      FieldRange(instr, ops[k]);
    }
    MaskedUnion(instr, op.opcode, ops, values);
    CompareIsValueCompare(instr, op);
    UnionCoversWord(instr, op.mask, MaskOfAll(ops));
  }

  /** A misread operand shows in the assembled word. */
  lemma EncodingTellsOperands(t: Tables, op: Opcode, instr: Word, radix: Radix, k: nat)
    requires WellFormedOpcode(t, op)
    requires k < |Visible(t, op, 0)|
    requires Encode(op.opcode, Visible(t, op, 0), ReadBacks(Visible(t, op, 0), instr, radix)) == instr
    ensures ReadBack(Visible(t, op, 0)[k], instr, radix) == ValueIn(instr, Visible(t, op, 0)[k])
  {
    hide ValueIn, Encode, SubMask, Masked, WellNamed, Fits;
    var ops := Visible(t, op, 0);
    FieldRange(instr, ops[k]);
    ZeroInRange(ops[k]);
    EncodeThenRead(op.opcode, ops, ReadBacks(ops, instr, radix), op.mask, k);
  }

  lemma ZeroInRange(o: Operand)
    requires ValidOperand(o)
    ensures InRange(0, o)
  {
  }

  /** Operands survive exactly if none is rejected and all are read as they were. */
  lemma OperandsSurvive(t: Tables, ops: seq<Operand>, instr: Word, radix: Radix)
    requires AllValid(ops)
    ensures AllSurvive(t, ops, instr, radix) <==> NoneRejected(t, ops, instr) && ReadRight(ops, instr, radix)
  {
    hide OperandSurvives, Rejected, ReadBack, ValueIn, ValidOperand;
    forall k | 0 <= k < |ops|
      ensures OperandSurvives(t, ops[k], instr, radix) <==>
                !Rejected(t, ops[k], instr) && ReadBack(ops[k], instr, radix) == ValueIn(instr, ops[k])
    {
      SurvivesCases(t, ops[k], instr, radix);
    }
  }

  lemma EncodingReadsRight(t: Tables, op: Opcode, instr: Word, radix: Radix)
    requires WellFormedOpcode(t, op)
    requires Encode(op.opcode, Visible(t, op, 0), ReadBacks(Visible(t, op, 0), instr, radix)) == instr
    ensures ReadRight(Visible(t, op, 0), instr, radix)
  {
    hide ReadBack, ValueIn, Encode, Visible, OpcodeInMask, Separate, WellNamed, ValidOperand;
    var ops := Visible(t, op, 0);
    forall k | 0 <= k < |ops|
      ensures ReadBack(ops[k], instr, radix) == ValueIn(instr, ops[k])
    {
      EncodingTellsOperands(t, op, instr, radix, k);
    }
  }

  lemma ShortNameRoundTrip(t: Tables, op: Opcode, instr: Word, radix: Radix)
    requires WellFormedOpcode(t, op) && Matches(instr, op) && |op.name| <= 7
    ensures Reassembled(t, op, instr, radix, 0, op.opcode) == Assembled(instr, 0) <==> Survives(t, op, instr, radix)
  {
    hide AllSurvive, NoneRejected, ReadRight, ReadBacks, AllBitsPrinted, Encode, Visible, WellFormedOpcode, Reassembled,
      Matches, ValidFields;
    FieldsAreValid(t, op);
    var ops := Visible(t, op, 0);
    ReassembledIsEncoding(t, op, instr, radix, 0, op.opcode);
    OperandsSurvive(t, ops, instr, radix);
    if Encode(op.opcode, ops, ReadBacks(ops, instr, radix)) == instr {
      EncodingReadsRight(t, op, instr, radix);
    }
    if ReadRight(ops, instr, radix) {
      EncodingOfWord(t, op, instr, radix, ops);
    }
  }

  /**
   Assembling the printed line at the same address gives exactly the instruction word, without
   an error, if and only if the instruction survives.
   */
  lemma RoundTrip(t: Tables, i: nat, instr: Word, virt: Word, radix: Radix)
    requires WellFormed(t) && AllFieldsValid(t)
    requires i < |t.opcodes| && Matches(instr, t.opcodes[i])
    ensures Assemble(t, virt, InstructionText(t, t.opcodes[i], instr, virt, radix)) == Assembled(instr, 0)
       <==> Survives(t, t.opcodes[i], instr, radix)
  {
    hide Assemble, InstructionText, Reassembled, Matches, OperandSurvives, AllBitsPrinted;
    var op := t.opcodes[i];
    assert WellFormedOpcode(t, op);
    if |op.name| <= 7 {
      AssembleShortName(t, i, instr, virt, radix);
      ShortNameRoundTrip(t, op, instr, radix);
    } else {
      AssembleLongName(t, i, instr, virt, radix);
    }
  }

  /** What `disppc` prints behind the address and raw instruction. */
  function Disassembly(t: Tables, instr: Word, virt: Word, flags: Word): string
    requires AllFieldsValid(t) && HandlersValid(t)
  {
    LineText(t, instr, virt, flags)[|Prefix(instr, virt, flags)|..]
  }

  /** An instruction printed in a simplified form does not come back. */
  lemma ShownRoundTrip(t: Tables, i: nat, instr: Word, virt: Word, flags: Word)
    requires WellFormed(t) && AllFieldsValid(t) && HandlersValid(t)
    requires i < |t.opcodes| && Matches(instr, t.opcodes[i])
    ensures var text := InstructionText(t, Shown(t, t.opcodes[i], instr, flags), instr, virt, RadixOf(flags));
            Assemble(t, virt, text) == Assembled(instr, 0)
            <==> Survives(t, t.opcodes[i], instr, RadixOf(flags)) && !Simplifies(t, t.opcodes[i], instr, flags)
  {
    hide InstructionText, Survives, Assemble, RadixOf, WellFormedOpcode, WellFormedSpr, Simplified, Matches;
    var op := t.opcodes[i];
    if Simplifies(t, op, instr, flags) {
      SimplifiedIsLost(t, Shown(t, op, instr, flags), instr, virt, RadixOf(flags));
    } else {
      RoundTrip(t, i, instr, virt, RadixOf(flags));
    }
  }

  /**
   For every table that can be searched, every 32-bit word, every address and all flags: if some
   opcode matches the word, the disassembly assembles to the word exactly when that opcode's
   instruction survives and is not printed in a simplified form; if none does, the disassembly is
   no instruction.
   */
  lemma LineRoundTrip(t: Tables, instr: Word, virt: Word, flags: Word)
    requires WellFormed(t) && AllFieldsValid(t) && HandlersValid(t) && SearchOrdered(t.opcodes)
    ensures match LinearFind(t.opcodes, instr)
            case Some(i) =>
              Assemble(t, virt, Disassembly(t, instr, virt, flags)) == Assembled(instr, 0)
              <==> Survives(t, t.opcodes[i], instr, RadixOf(flags)) && !Simplifies(t, t.opcodes[i], instr, flags)
            case None =>
              Disassembly(t, instr, virt, flags) == "        .long 0x" + ZeroPadded(Value(instr), 8)
  {
    hide Prefix, InstructionText, Survives, Assemble, RadixOf, ZeroPadded, WellFormed, SearchOrdered, Simplified;
    ProbeIsLinear(t.opcodes, instr);
    match LinearFind(t.opcodes, instr)
    case None =>
    case Some(i) =>
      var text := InstructionText(t, Shown(t, t.opcodes[i], instr, flags), instr, virt, RadixOf(flags));
      assert Disassembly(t, instr, virt, flags) == text;
      ShownRoundTrip(t, i, instr, virt, flags);
  }
}
