/**
 The text layer of the assembler and disassembler: how numbers are printed and read back,
 and how a line is cut into words.  A C string is modelled by the characters in front of
 its terminating NUL.
 */
module Text {
  import opened Basics
  import opened Words

  predicate IsBlank(c: char)
  {
    c == ' ' || c == '\t'
  }

  predicate IsDigit(c: char)
  {
    '0' <= c <= '9'
  }

  predicate IsXdigit(c: char)
  {
    IsDigit(c) || 'a' <= c <= 'f' || 'A' <= c <= 'F'
  }

  predicate IsUpper(c: char)
  {
    'A' <= c <= 'Z'
  }

  function DigitValue(c: char): (v: nat)
    requires IsXdigit(c)
    ensures v < 16
  {
    if IsDigit(c) then c as int - '0' as int
    else if 'a' <= c <= 'f' then c as int - 'a' as int + 10
    else c as int - 'A' as int + 10
  }

  function DigitChar(d: nat): (c: char)
    requires d < 16
    ensures IsXdigit(c) && DigitValue(c) == d
    ensures c != ',' && !IsBlank(c) && !IsUpper(c)
    ensures c == '0' <==> d == 0
    ensures d < 10 ==> IsDigit(c)
  {
    if d < 10 then (d + '0' as int) as char else (d - 10 + 'a' as int) as char
  }

  predicate PrintBase(base: nat)
  {
    base == 8 || base == 10 || base == 16
  }

  lemma DivideByBase(n: nat, base: nat)
    requires PrintBase(base)
    ensures n / base * base + n % base == n
    ensures n % base < base
    ensures n >= base ==> 0 < n / base < n
  {
    if base == 8 {
    } else if base == 10 {
    } else {
    }
  }

  predicate AreDigits(s: string, base: nat)
  {
    forall i :: 0 <= i < |s| ==> IsXdigit(s[i]) && DigitValue(s[i]) < base && !IsUpper(s[i])
  }

  /** What `%u`, `%d` and `%x` print for a non-negative number. */
  function Digits(n: nat, base: nat): (s: string)
    requires PrintBase(base)
    ensures |s| >= 1
    ensures s[0] == '0' <==> n == 0
    ensures AreDigits(s, base)
    ensures n == 0 ==> |s| == 1
    decreases n
  {
    if n < base then [DigitChar(n)]
    else
      DivideByBase(n, base);
      Digits(n / base, base) + [DigitChar(n % base)]
  }

  /** The first number that needs more than `width` digits. */
  function Limit(base: nat, width: nat): nat
  {
    if width == 0 then 1 else base * Limit(base, width - 1)
  }

  lemma {:induction false} DigitsWidth(n: nat, base: nat, width: nat)
    requires PrintBase(base) && width >= 1 && n < Limit(base, width)
    ensures |Digits(n, base)| <= width
    decreases width
  {
    assert Limit(base, 0) == 1;
    if n >= base {
      DivideByBase(n, base);
      QuotientBound(n, base, Limit(base, width - 1));
      DigitsWidth(n / base, base, width - 1);
    }
  }

  lemma QuotientBound(n: nat, base: nat, limit: nat)
    requires PrintBase(base) && n < base * limit
    ensures n / base < limit
  {
    if base == 8 {
    } else if base == 10 {
    } else {
    }
  }

  lemma HexWidth(n: nat, width: nat)
    requires (width == 2 && n < 0x100) || (width == 4 && n < 0x1_0000) || (width == 8 && n < WORD_LIMIT)
    ensures |Digits(n, 16)| <= width
  {
    assert Limit(16, 2) == 0x100;
    assert Limit(16, 4) == 0x1_0000;
    assert Limit(16, 6) == 0x100_0000;
    assert Limit(16, 8) == WORD_LIMIT;
    DigitsWidth(n, 16, width);
  }

  // ---------------------------------------------------------------------------------
  // Reading numbers: simple_strtoul and read_number

  predicate TakesDigit(s: string, base: nat)
  {
    s != "" && IsXdigit(s[0]) && DigitValue(s[0]) < base
  }

  /** The digit loop of simple_strtoul, on 32-bit arithmetic. */
  function Accumulate(s: string, base: nat, acc: nat): nat
  {
    if TakesDigit(s, base)
    then Accumulate(s[1..], base, (acc * base + DigitValue(s[0])) % WORD_LIMIT)
    else acc
  }

  /**
   A leading zero is dropped, and `0x` in front of a hex digit switches to base 16.  Without a
   base, a leading zero stands for base 8 and anything else for base 10.
   */
  function SkipPrefix(s: string, base: nat): (string, nat)
  {
    if s == "" || s[0] != '0' then (s, if base == 0 then 10 else base)
    else if |s| >= 3 && s[1] == 'x' && IsXdigit(s[2]) then (s[2..], 16)
    else (s[1..], if base == 0 then 8 else base)
  }

  function Strtoul(s: string, base: nat): nat
  {
    var (digits, radix) := SkipPrefix(s, base);
    Accumulate(digits, radix, 0)
  }

  method SimpleStrtoul(s: string, base: nat) returns (result: nat)
    ensures result == Strtoul(s, base)
  {
    var cp, radix := s, base;
    if cp != "" && cp[0] == '0' {
      cp := cp[1..];
      if |cp| >= 2 && cp[0] == 'x' && IsXdigit(cp[1]) {
        radix := 16;
        cp := cp[1..];
      }
      if radix == 0 {
        radix := 8;
      }
    }
    if radix == 0 {
      radix := 10;
    }
    assert (cp, radix) == SkipPrefix(s, base);
    result := 0;
    while cp != "" && IsXdigit(cp[0]) && DigitValue(cp[0]) < radix
      invariant Accumulate(cp, radix, result) == Strtoul(s, base)
      decreases |cp|
    {
      result := (result * radix + DigitValue(cp[0])) % WORD_LIMIT;
      cp := cp[1..];
    }
  }

  function ReadMagnitude(s: string): nat
  {
    if |s| >= 2 && s[0] == '0' && (s[1] == 'x' || s[1] == 'X')
    then Strtoul(s[2..], 16)
    else Strtoul(s, 10)
  }

  /** `read_number`: the 32-bit two's complement value that a numeral stands for. */
  function ReadNumber(s: string): Word
  {
    if s == "" then 0
    else if s[0] == '-' then 0 - ToWord(ReadMagnitude(s[1..]))
    else ToWord(ReadMagnitude(s))
  }

  lemma AccumulateOne(s: string, base: nat, acc: nat, sum: nat)
    requires TakesDigit(s, base) && sum == acc * base + DigitValue(s[0]) < WORD_LIMIT
    ensures Accumulate(s, base, acc) == Accumulate(s[1..], base, sum)
  {
    hide IsXdigit, DigitValue;
  }

  lemma AccumulateStep(d: nat, rest: string, base: nat, acc: nat, sum: nat)
    requires d < base <= 16
    requires sum == acc * base + d < WORD_LIMIT
    ensures Accumulate([DigitChar(d)] + rest, base, acc) == Accumulate(rest, base, sum)
  {
    hide DigitChar, DigitValue, IsXdigit, Accumulate;
    var s := [DigitChar(d)] + rest;
    assert s[0] == DigitChar(d) && s[1..] == rest;
    AccumulateOne(s, base, acc, sum);
  }

  lemma {:induction false} AccumulateDigits(n: nat, base: nat, rest: string)
    requires PrintBase(base)
    requires n < WORD_LIMIT
    ensures Accumulate(Digits(n, base) + rest, base, 0) == Accumulate(rest, base, n)
    decreases n
  {
    hide Accumulate;
    if n < base {
      AccumulateStep(n, rest, base, 0, n);
    } else {
      DivideByBase(n, base);
      var q, r := n / base, n % base;
      var d := [DigitChar(r)];
      assert Digits(n, base) + rest == Digits(q, base) + (d + rest);
      AccumulateDigits(q, base, d + rest);
      AccumulateStep(r, rest, base, q, n);
    }
  }

  /** Reading back what was printed, in a base that the reader knows. */
  lemma StrtoulDigits(n: nat, base: nat)
    requires PrintBase(base)
    requires n < WORD_LIMIT
    ensures Strtoul(Digits(n, base), base) == n
  {
    var s := Digits(n, base);
    AccumulateDigits(n, base, "");
    assert s + "" == s;
    if n == 0 {
      assert s[1..] == "";
    }
  }

  lemma ReadHex(w: Word)
    ensures ReadNumber("0x" + Digits(Value(w), 16)) == w
  {
    var s := "0x" + Digits(Value(w), 16);
    assert s[2..] == Digits(Value(w), 16);
    ValueInRange(w);
    StrtoulDigits(Value(w), 16);
    ToWordValue(w);
  }

  lemma ReadDecimal(w: Word)
    ensures ReadNumber(Digits(Value(w), 10)) == w
  {
    var s := Digits(Value(w), 10);
    assert s[0] != '-';
    assert s[0] == '0' ==> |s| == 1;
    ValueInRange(w);
    StrtoulDigits(Value(w), 10);
    ToWordValue(w);
  }

  /** A numeral with a minus sign stands for the two's complement of what follows. */
  lemma ReadNegative(w: Word)
    ensures ReadNumber("-" + Digits(Value(w), 10)) == 0 - w
  {
    hide Digits, Value, ToWord;
    var s := "-" + Digits(Value(w), 10);
    assert s[1..] == Digits(Value(w), 10);
    ReadDecimal(w);
    assert Digits(Value(w), 10) != "" && Digits(Value(w), 10)[0] != '-';
  }

  /** The octal form starts with the letter O, which is no digit: it reads as zero. */
  lemma ReadOctal(s: string)
    ensures ReadNumber("O" + s) == 0
  {
    var t := "O" + s;
    assert t[0] == 'O';
    assert !TakesDigit(t, 10);
  }

  // ---------------------------------------------------------------------------------
  // Cutting a line into words: get_word and downstring

  function SkipBlanks(s: string): string
  {
    if s != "" && IsBlank(s[0]) then SkipBlanks(s[1..]) else s
  }

  predicate EndsWord(c: char)
  {
    IsBlank(c) || c == ','
  }

  /** The number of characters in front of the first blank or comma. */
  function WordLength(s: string): (n: nat)
    ensures n <= |s|
    ensures forall i :: 0 <= i < n ==> !EndsWord(s[i])
    ensures n < |s| ==> EndsWord(s[n])
  {
    if s == "" || EndsWord(s[0]) then 0 else 1 + WordLength(s[1..])
  }

  /** The word at the front of a line, and the line after it and one comma. */
  function GetWordSpec(s: string): (string, string)
  {
    var t := SkipBlanks(s);
    var n := WordLength(t);
    (t[..n], if n < |t| && t[n] == ',' then t[n + 1..] else t[n..])
  }

  lemma WordLengthIs(s: string, n: nat)
    requires n <= |s| && (n < |s| ==> EndsWord(s[n]))
    requires forall i :: 0 <= i < n ==> !EndsWord(s[i])
    ensures WordLength(s) == n
  {
    hide WordLength, EndsWord;
  }

  /** The loop of `get_word` that copies a word. */
  method CopyWord(src: string) returns (dest: string, rest: string)
    ensures dest == src[..WordLength(src)] && rest == src[WordLength(src)..]
  {
    hide WordLength, EndsWord;
    var n := 0;
    dest := "";
    while n < |src| && !EndsWord(src[n])
      invariant n <= |src| && dest == src[..n]
      invariant forall i :: 0 <= i < n ==> !EndsWord(src[i])
    {
      dest := dest + [src[n]];
      n := n + 1;
    }
    WordLengthIs(src, n);
    rest := src[n..];
  }

  /** `get_word`: the word copied out and the rest of the line; an empty word means none. */
  method GetWord(src: string) returns (dest: string, rest: string)
    ensures (dest, rest) == GetWordSpec(src)
  {
    hide WordLength, EndsWord;
    var ptr := src;
    while ptr != "" && IsBlank(ptr[0])
      invariant SkipBlanks(ptr) == SkipBlanks(src)
      decreases |ptr|
    {
      ptr := ptr[1..];
    }
    if ptr == "" {
      return "", ptr;
    }
    dest, rest := CopyWord(ptr);
    if rest != "" && rest[0] == ',' {
      rest := rest[1..];
    }
  }

  function ToLower(c: char): char
  {
    if IsUpper(c) then (c as int + 32) as char else c
  }

  function Lowered(s: string): (r: string)
    ensures |r| == |s|
    ensures forall i :: 0 <= i < |s| ==> r[i] == ToLower(s[i])
  {
    if s == "" then "" else [ToLower(s[0])] + Lowered(s[1..])
  }

  /** `downstring`: lower-cases a string in place. */
  method DownString(s: array<char>)
    modifies s
    ensures s[..] == Lowered(old(s[..]))
  {
    for i := 0 to s.Length
      invariant forall k :: 0 <= k < i ==> s[k] == ToLower(old(s[k]))
      invariant forall k :: i <= k < s.Length ==> s[k] == old(s[k])
    {
      if IsUpper(s[i]) {
        s[i] := ToLower(s[i]);
      }
    }
    ghost var was := old(s[..]);
    assert forall k :: 0 <= k < s.Length ==> s[..][k] == Lowered(was)[k];
  }

  /** A string that `get_word` keeps in one piece. */
  predicate IsWord(s: string)
  {
    s != "" && forall i :: 0 <= i < |s| ==> !EndsWord(s[i])
  }

  lemma {:induction false} WordLengthOf(w: string, rest: string)
    requires forall i :: 0 <= i < |w| ==> !EndsWord(w[i])
    requires rest == "" || EndsWord(rest[0])
    ensures WordLength(w + rest) == |w|
  {
    if w != "" {
      assert (w + rest)[1..] == w[1..] + rest;
      WordLengthOf(w[1..], rest);
    } else {
      assert w + rest == rest;
    }
  }

  lemma GetWordOf(w: string, rest: string)
    requires IsWord(w)
    requires rest == "" || EndsWord(rest[0])
    ensures GetWordSpec(w + rest) == (w, if rest != "" && rest[0] == ',' then rest[1..] else rest)
  {
    var t := w + rest;
    assert t[0] == w[0];
    WordLengthOf(w, rest);
    assert t[..|w|] == w && t[|w|..] == rest;
    assert rest != "" ==> t[|w| + 1..] == rest[1..];
  }

  function Spaces(n: nat): (s: string)
    ensures |s| == n
    ensures forall i :: 0 <= i < n ==> s[i] == ' '
  {
    if n == 0 then "" else [' '] + Spaces(n - 1)
  }

  lemma GetWordSkipsBlank(s: string)
    requires s != "" && IsBlank(s[0])
    ensures GetWordSpec(s) == GetWordSpec(s[1..])
  {
    hide WordLength;
  }

  lemma {:induction false} GetWordSkipsSpaces(n: nat, s: string)
    ensures GetWordSpec(Spaces(n) + s) == GetWordSpec(s)
  {
    hide GetWordSpec;
    if n > 0 {
      GetWordSkipsBlank(Spaces(n) + s);
      assert (Spaces(n) + s)[1..] == Spaces(n - 1) + s;
      GetWordSkipsSpaces(n - 1, s);
    } else {
      assert Spaces(0) + s == s;
    }
  }

  lemma LoweredIsSame(s: string)
    requires forall i :: 0 <= i < |s| ==> !IsUpper(s[i])
    ensures Lowered(s) == s
  {
  }
}
