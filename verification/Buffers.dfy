/**
 The fixed buffers of the disassembler and the assembler: a line is built in 256 bytes, and
 the assembler copies each word of its input to 20 bytes.
 */
module Buffers {
  import opened Basics
  import opened Words
  import opened Opcodes
  import opened Operands
  import opened Text
  import opened Disassembler
  import opened RoundTrip

  const WORD_BUFFER := 20
  const LINE_BUFFER := 256

  lemma {:induction false} SkipBlanksShortens(s: string)
    ensures |SkipBlanks(s)| <= |s|
  {
    if s != "" && IsBlank(s[0]) {
      SkipBlanksShortens(s[1..]);
    }
  }

  lemma GetWordShortens(s: string)
    ensures GetWordSpec(s).0 != "" ==> |GetWordSpec(s).1| < |s|
  {
    hide SkipBlanks, WordLength;
    SkipBlanksShortens(s);
  }

  /** Every word that `get_word` cuts off the text fits its buffer, with the NUL. */
  predicate WordsFit(s: string)
    decreases |s|
  {
    GetWordShortens(s);
    var (word, rest) := GetWordSpec(s);
    word == "" || (|word| < WORD_BUFFER && WordsFit(rest))
  }

  lemma WordsFitCons(word: string, rest: string)
    requires IsWord(word) && |word| < WORD_BUFFER
    requires rest == "" || EndsWord(rest[0])
    requires WordsFit(Uncomma(rest))
    ensures WordsFit(word + rest)
  {
    hide GetWordSpec, EndsWord;
    GetWordOf(word, rest);
  }

  lemma WordsFitSpaces(n: nat, s: string)
    requires WordsFit(s)
    ensures WordsFit(Spaces(n) + s)
  {
    hide GetWordSpec;
    GetWordSkipsSpaces(n, s);
  }

  // ---------------------------------------------------------------------------------
  // Operands

  predicate ShortSprs(t: Tables)
  {
    forall i :: 0 <= i < |t.sprs| ==> WellFormedSpr(t.sprs[i]) && |t.sprs[i].name| <= 9
  }

  lemma SmallRegisterNumber(v: Word, bits: Word)
    requires bits <= 5 && Fits(v, bits)
    ensures Value(v) < 32
  {
    assert v & !0x1f == 0;
    assert LowMask(5) == 0x1f && Pow2(5) == 32;
    ValueBound(v, 5);
  }

  lemma SmallImmediate(v: Word, bits: Word)
    requires bits <= 16 && Fits(v, bits)
    ensures Value(v) < 0x1_0000
  {
    assert v & !0xffff == 0;
    assert LowMask(8) == 0xff && Pow2(8) == 0x100;
    assert LowMask(16) == 0xffff && Pow2(16) == 0x1_0000;
    ValueBound(v, 16);
  }

  lemma WordDigits(v: Word)
    ensures |Digits(Value(v), 16)| <= 8 && |Digits(Value(v), 10)| <= 10
  {
    ValueInRange(v);
    HexWidth(Value(v), 8);
    assert Limit(10, 5) == 100000;
    assert Limit(10, 10) == 10000000000;
    DigitsWidth(Value(v), 10, 10);
  }

  lemma ImmediateWidth(v: Word, radix: Radix)
    requires Value(v) < 0x1_0000
    ensures |RadixText(v, radix)| <= 7
  {
    hide Value;
    HexWidth(Value(v), 4);
    assert Limit(10, 5) == 100000;
    assert Limit(8, 3) == 512;
    assert Limit(8, 6) == 262144;
    DigitsWidth(Value(v), 10, 5);
    DigitsWidth(Value(v), 8, 6);
  }

  lemma RegisterWidth(v: Word)
    requires Value(v) < 32
    ensures |"r" + Digits(Value(v), 10)| <= 3
  {
    hide Value;
    assert Limit(10, 2) == 100;
    DigitsWidth(Value(v), 10, 2);
  }

  lemma SprWidth(t: Tables, v: Word)
    requires ShortSprs(t)
    ensures |SprText(t.sprs, v)| <= 10
  {
    hide SwapHalves, Digits, Value, WellFormedSpr;
    LookupSprIsWord(t.sprs, SwapHalves(v));
    WordDigits(SwapHalves(v));
  }

  predicate WidthOk(kind: Kind, text: string)
  {
    && |text| <= 10
    && (kind == Register ==> |text| <= 3)
    && (kind.Immediate? ==> |text| <= 7)
  }

  lemma OperandWidth(t: Tables, op: Opcode, o: Operand, instr: Word, virt: Word, radix: Radix)
    requires ValidOperand(o) && ShortSprs(t)
    ensures WidthOk(KindOf(o), OperandText(t, op, o, instr, virt, radix))
  {
    hide KindOf, ValueIn, SprText, RadixText, TargetOf, PrintsZero, Digits, Value, ShortSprs, Fits, SwapHalves;
    var v := ValueIn(instr, o);
    FieldRange(instr, o);
    match KindOf(o)
    case Silent =>
    case Address => WordDigits(TargetOf(instr, op, o, virt));
    case Register =>
      SmallRegisterNumber(v, o.bits);
      RegisterWidth(v);
    case Spr => SprWidth(t, v);
    case Tbr =>
    case Literal =>
    case Immediate(_) =>
      SmallImmediate(v, o.bits);
      ImmediateWidth(v, radix);
  }

  // ---------------------------------------------------------------------------------
  // Lines

  lemma OffsetFits(t: Tables, op: Opcode, instr: Word, virt: Word, radix: Radix, k: nat)
    requires ValidFields(t.operands, op.fields) && ShortSprs(t)
    requires k + 2 == |op.fields| && KindAt(t, op, k) == Immediate(true) && KindAt(t, op, k + 1) == Register
    ensures WordsFit(Uncomma(TailText(t, op, instr, virt, radix, k)))
    ensures |TailText(t, op, instr, virt, radix, k)| <= 20
  {
    hide OperandText, KindOf, WellFormedSpr, IsWord, Comma, Uncomma, WordsFit, ValidOperand;
    var text, reg := TextAt(t, op, instr, virt, radix, k), TextAt(t, op, instr, virt, radix, k + 1);
    OperandTextIsWord(t, op, At(t, op, k), instr, virt, radix);
    OperandTextIsWord(t, op, At(t, op, k + 1), instr, virt, radix);
    OperandWidth(t, op, At(t, op, k), instr, virt, radix);
    OperandWidth(t, op, At(t, op, k + 1), instr, virt, radix);
    OffsetIsWord(text, reg);
    CommaWidth(k);
    var whole := text + "(" + reg + ")";
    UncommaTail(k, whole, "");
    assert whole + "" == whole;
    NoWordsFit();
    WordsFitCons(whole, "");
  }

  lemma CommaWidth(k: nat)
    ensures |Comma(k)| <= 1
  {
  }

  lemma NoWordsFit()
    ensures WordsFit("") && Uncomma("") == ""
  {
    hide GetWordSpec;
    GetWordOfNothing();
  }

  lemma OperandFits(t: Tables, op: Opcode, instr: Word, virt: Word, radix: Radix, k: nat)
    requires ValidFields(t.operands, op.fields) && ShortSprs(t) && k < |op.fields|
    requires KindAt(t, op, k) != Silent && KindAt(t, op, k) != Immediate(true)
    requires WordsFit(Uncomma(TailText(t, op, instr, virt, radix, k + 1)))
    ensures WordsFit(Uncomma(TailText(t, op, instr, virt, radix, k)))
    ensures |TailText(t, op, instr, virt, radix, k)| <= 20 + |TailText(t, op, instr, virt, radix, k + 1)|
  {
    hide OperandText, KindOf, WellFormedSpr, IsWord, Comma, Uncomma, WordsFit, ValidOperand;
    var text, tail := TextAt(t, op, instr, virt, radix, k), TailText(t, op, instr, virt, radix, k + 1);
    OperandTextIsWord(t, op, At(t, op, k), instr, virt, radix);
    OperandWidth(t, op, At(t, op, k), instr, virt, radix);
    TailStartsWithComma(t, op, instr, virt, radix, k + 1);
    CommaWidth(k);
    UncommaTail(k, text, tail);
    WordsFitCons(text, tail);
  }

  lemma {:induction false} TailFits(t: Tables, op: Opcode, instr: Word, virt: Word, radix: Radix, k: nat)
    requires WellFormedOpcode(t, op) && ShortSprs(t) && k <= |op.fields|
    ensures WordsFit(Uncomma(TailText(t, op, instr, virt, radix, k)))
    ensures |TailText(t, op, instr, virt, radix, k)| <= 20 * (|op.fields| - k)
    decreases |op.fields| - k
  {
    hide KindOf, WellFormedOpcode, ShortSprs, Uncomma, WordsFit, ValidFields, TextAt, Comma;
    FieldsAreValid(t, op);
    if k == |op.fields| {
      NoWordsFit();
    } else if KindAt(t, op, k) == Silent {
      TailFits(t, op, instr, virt, radix, k + 1);
    } else if KindAt(t, op, k) == Immediate(true) {
      OffsetBeforeRegister(t, op, k);
      OffsetFits(t, op, instr, virt, radix, k);
    } else {
      TailFits(t, op, instr, virt, radix, k + 1);
      OperandFits(t, op, instr, virt, radix, k);
    }
  }

  predicate TextFits(text: string)
  {
    WordsFit(text) && |text| <= 200
  }

  lemma ShortNameFits(t: Tables, op: Opcode, instr: Word, virt: Word, radix: Radix)
    requires WellFormedOpcode(t, op) && ShortSprs(t) && |op.name| <= 7
    ensures TextFits(InstructionText(t, op, instr, virt, radix))
  {
    hide KindOf, OpcodeInMask, Separate, ShortSprs, PrintFrom, TailText, Uncomma, WordsFit, TextAt;
    var pad, tail := Spaces(8 - |op.name|), TailText(t, op, instr, virt, radix, 0);
    TailFits(t, op, instr, virt, radix, 0);
    TailStartsCleanHere(t, op, instr, virt, radix);
    WordsFitSpaces(8 - |op.name|, tail);
    PrintIsTail(t, op, instr, virt, radix, 0, Mnemonic(op.name));
    assert op.name + pad + tail == op.name + (pad + tail);
    UncommaSpaces(8 - |op.name|, tail);
    WordsFitCons(op.name, pad + tail);
  }

  lemma TailStartsCleanHere(t: Tables, op: Opcode, instr: Word, virt: Word, radix: Radix)
    requires WellFormedOpcode(t, op) && ShortSprs(t)
    ensures var tail := TailText(t, op, instr, virt, radix, 0); Uncomma(tail) == tail
  {
    hide WellFormedOpcode, WellFormedSpr, TailText;
    TailStartsClean(t, op, instr, virt, radix);
  }

  lemma UncommaSpaces(n: nat, s: string)
    requires n > 0
    ensures Uncomma(Spaces(n) + s) == Spaces(n) + s && EndsWord((Spaces(n) + s)[0])
  {
    assert (Spaces(n) + s)[0] == ' ';
  }

  lemma LongNameFits(t: Tables, op: Opcode, instr: Word, virt: Word, radix: Radix)
    requires WellFormedOpcode(t, op) && ShortSprs(t) && |op.name| == 8
    ensures TextFits(InstructionText(t, op, instr, virt, radix))
  {
    hide OperandText, KindOf, OpcodeInMask, Separate, WellFormedSpr, InstructionText, TailText, Uncomma, WordsFit;
    var text, tail := TextAt(t, op, instr, virt, radix, 0), TailText(t, op, instr, virt, radix, 1);
    LongNamePrinting(t, op, instr, virt, radix);
    OperandTextIsWord(t, op, At(t, op, 0), instr, virt, radix);
    OperandWidth(t, op, At(t, op, 0), instr, virt, radix);
    ConcatIsWord(op.name, text);
    TailFits(t, op, instr, virt, radix, 1);
    TailStartsWithComma(t, op, instr, virt, radix, 1);
    WordsFitCons(op.name + text, tail);
  }

  lemma {:induction false} ZerosAreWord(n: nat)
    requires n > 0
    ensures IsWord(Zeros(n))
  {
    if n > 1 {
      ZerosAreWord(n - 1);
      ConcatIsWord("0", Zeros(n - 1));
    } else {
      assert Zeros(1) == "0";
    }
  }

  lemma DirectiveFits(instr: Word)
    ensures TextFits("        .long 0x" + ZeroPadded(Value(instr), 8))
  {
    hide WordsFit, Digits, Value, IsWord, Zeros, Uncomma;
    var d := Digits(Value(instr), 16);
    var number := "0x" + ZeroPadded(Value(instr), 8);
    WordDigits(instr);
    DigitsAreWord(Value(instr), 16);
    if |d| < 8 {
      ZerosAreWord(8 - |d|);
      ConcatIsWord(Zeros(8 - |d|), d);
    }
    PlainWords();
    ConcatIsWord("0x", ZeroPadded(Value(instr), 8));
    NoWordsFit();
    WordsFitCons(number, "");
    assert number + "" == number;
    WordsFitSpaces(1, number);
    UncommaSpaces(1, number);
    WordsFitCons(".long", Spaces(1) + number);
    WordsFitSpaces(8, ".long" + (Spaces(1) + number));
    assert Spaces(8) + (".long" + (Spaces(1) + number)) == "        .long 0x" + ZeroPadded(Value(instr), 8);
  }

  lemma PlainWords()
    ensures IsWord("0x") && IsWord(".long")
  {
  }

  lemma ShownIsWellFormed(t: Tables, i: nat, instr: Word, flags: Word)
    requires WellFormed(t) && AllFieldsValid(t) && i < |t.opcodes|
    ensures WellFormedOpcode(t, Shown(t, t.opcodes[i], instr, flags))
  {
    hide WellFormedOpcode, WellFormedSpr, ValidFields, Simplified;
  }

  /** Every line of the disassembly fits its buffer, and every word of it the assembler's. */
  lemma BuffersSuffice(t: Tables, instr: Word, virt: Word, flags: Word)
    requires WellFormed(t) && AllFieldsValid(t) && HandlersValid(t) && ShortSprs(t)
    ensures |LineText(t, instr, virt, flags)| < LINE_BUFFER
    ensures WordsFit(Disassembly(t, instr, virt, flags))
  {
    hide WellFormed, ShortSprs, WordsFit, InstructionText, Prefix, ZeroPadded, WellFormedOpcode, ValidFields, Shown,
      RadixOf;
    PrefixLength(instr, virt, flags);
    var text := Disassembly(t, instr, virt, flags);
    match Probe(t.opcodes, instr, 0, |t.opcodes|)
    case None =>
      assert text == "        .long 0x" + ZeroPadded(Value(instr), 8);
      DirectiveFits(instr);
    case Some(i) =>
      var op := Shown(t, t.opcodes[i], instr, flags);
      ShownIsWellFormed(t, i, instr, flags);
      FieldsAreValid(t, op);
      assert text == InstructionText(t, op, instr, virt, RadixOf(flags));
      NameIsShort(t, op);
      if |op.name| <= 7 {
        ShortNameFits(t, op, instr, virt, RadixOf(flags));
      } else {
        LongNameFits(t, op, instr, virt, RadixOf(flags));
      }
  }

  lemma NameIsShort(t: Tables, op: Opcode)
    requires WellFormedOpcode(t, op)
    ensures |op.name| <= 8
  {
    hide OpcodeInMask, Separate;
  }
}
