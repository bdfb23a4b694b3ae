/**
 32-bit machine words and the bit fields cut out of them.

 `unsigned long` and `unsigned int` are 32 bits wide on the PowerPC target, so
 both are `bv32` here; a signed `long` is the same bits read in two's complement.
 */
module Words {

  type Word = bv32

  const SIGN_BIT: Word := 0x8000_0000

  function Masked(w: Word, mask: Word): Word
  {
    w & mask
  }

  predicate SubMask(y: Word, x: Word)
  {
    y & !x == 0
  }

  /** The low `bits` bits set: `(1 << bits) - 1`. */
  function Ones(bits: Word): Word
    requires bits <= 31
  {
    (1 << bits) - 1
  }

  /** A field shape that the shifts of the source are defined for. */
  predicate ValidField(bits: Word, shift: Word)
  {
    bits <= 31 && shift <= 31 && bits + shift <= 32
  }

  /** The bits of a word that a field occupies. */
  function FieldMask(bits: Word, shift: Word): Word
    requires ValidField(bits, shift)
  {
    Ones(bits) << shift
  }

  function Extract(w: Word, bits: Word, shift: Word): Word
    requires ValidField(bits, shift)
  {
    (w >> shift) & Ones(bits)
  }

  function Insert(v: Word, bits: Word, shift: Word): Word
    requires ValidField(bits, shift)
  {
    (v & Ones(bits)) << shift
  }

  predicate Negative(w: Word)
  {
    w & SIGN_BIT != 0
  }

  /** Signed `a > b` on the two's complement readings, for a non-negative `b`. */
  predicate SignedGreater(a: Word, b: Word)
    requires !Negative(b)
  {
    !Negative(a) && a > b
  }

  /** Arithmetic shift right by two places. */
  function ShiftRight2(w: Word): Word
  {
    if Negative(w) then (w >> 2) | 0xC000_0000 else w >> 2
  }

  /** Reads the low `bits` bits of `x` as a signed number, widened to a word. */
  function SignExtend(x: Word, bits: Word): Word
    requires 1 <= bits <= 31
  {
    if x & (1 << (bits - 1)) != 0 then x - (1 << bits) else x
  }

  /** Swaps the two five-bit halves of a ten-bit SPR or TBR number. */
  function SwapHalves(x: Word): Word
  {
    ((x >> 5) & 0x1f) | ((x & 0x1f) << 5)
  }

  /** `v` has no bit above the low `bits`. */
  predicate Fits(v: Word, bits: Word)
    requires bits <= 31
  {
    v & !Ones(bits) == 0
  }

  // ---------------------------------------------------------------------------------
  // Laws of fields

  lemma ExtractFits(w: Word, bits: Word, shift: Word)
    requires ValidField(bits, shift)
    ensures Fits(Extract(w, bits, shift), bits)
  {
  }

  lemma InsertExtract(w: Word, bits: Word, shift: Word)
    requires ValidField(bits, shift)
    ensures Insert(Extract(w, bits, shift), bits, shift) == w & FieldMask(bits, shift)
  {
  }

  lemma ExtractInsert(v: Word, bits: Word, shift: Word)
    requires ValidField(bits, shift)
    requires Fits(v, bits)
    ensures Extract(Insert(v, bits, shift), bits, shift) == v
  {
  }

  lemma InsertInField(v: Word, bits: Word, shift: Word)
    requires ValidField(bits, shift)
    ensures Insert(v, bits, shift) & FieldMask(bits, shift) == Insert(v, bits, shift)
  {
  }

  /** Extraction sees only the field's own bits. */
  lemma ExtractLocal(w: Word, w': Word, bits: Word, shift: Word)
    requires ValidField(bits, shift)
    requires w & FieldMask(bits, shift) == w' & FieldMask(bits, shift)
    ensures Extract(w, bits, shift) == Extract(w', bits, shift)
  {
  }

  lemma SwapTwice(x: Word)
    requires Fits(x, 10)
    ensures SwapHalves(SwapHalves(x)) == x
    ensures Fits(SwapHalves(x), 10)
    ensures SwapHalves(x) == 0 <==> x == 0
  {
  }

  // ---------------------------------------------------------------------------------
  // The number a word stands for

  predicate Odd(w: Word)
  {
    w & 1 == 1
  }

  function Half(w: Word): Word
  {
    w >> 1
  }

  lemma HalfSmaller(w: Word)
    requires w != 0
    ensures Half(w) < w
  {
  }

  function Join(h: Word, odd: bool): Word
  {
    if odd then (h << 1) | 1 else h << 1
  }

  function Bit(b: bool): nat
  {
    if b then 1 else 0
  }

  /** The unsigned value of a word. */
  function Value(w: Word): nat
    decreases w
  {
    if w == 0 then 0
    else
      HalfSmaller(w);
      Bit(Odd(w)) + 2 * Value(Half(w))
  }

  /** The word that holds `n` modulo 2^32. */
  function ToWord(n: nat): Word
  {
    if n == 0 then 0 else Join(ToWord(n / 2), n % 2 == 1)
  }

  lemma JoinHalf(w: Word)
    ensures Join(Half(w), Odd(w)) == w
  {
  }

  lemma ValueHalf(w: Word)
    ensures Value(w) == Bit(Odd(w)) + 2 * Value(Half(w))
  {
  }

  lemma ToWordDouble(m: nat, odd: bool)
    ensures ToWord(Bit(odd) + 2 * m) == Join(ToWord(m), odd)
  {
    var n := Bit(odd) + 2 * m;
    assert n / 2 == m && (n % 2 == 1) == odd;
    if n == 0 {
      assert Join(0, false) == 0;
    }
  }

  lemma {:induction false} ToWordValue(w: Word)
    ensures ToWord(Value(w)) == w
    decreases w
  {
    hide Half, Odd, Join;
    if w != 0 {
      HalfSmaller(w);
      ToWordValue(Half(w));
      ToWordDouble(Value(Half(w)), Odd(w));
      JoinHalf(w);
    }
  }

  lemma ValueInjective(a: Word, b: Word)
    requires Value(a) == Value(b)
    ensures a == b
  {
    ToWordValue(a);
    ToWordValue(b);
  }

  lemma SubMaskHalf(y: Word, x: Word)
    requires SubMask(y, x)
    ensures SubMask(Half(y), Half(x))
    ensures Odd(y) ==> Odd(x)
  {
  }

  /** A word with a subset of another's bits is the smaller number. */
  lemma {:induction false} SubMaskBelow(y: Word, x: Word)
    requires SubMask(y, x)
    ensures Value(y) <= Value(x)
    decreases y
  {
    if y != 0 {
      HalfSmaller(y);
      SubMaskHalf(y, x);
      SubMaskBelow(Half(y), Half(x));
      ValueHalf(x);
    }
  }

  /** The unsigned comparison of the source. */
  predicate Less(a: Word, b: Word)
  {
    a < b
  }

  lemma HalfLess(a: Word, b: Word)
    requires Less(Half(a), Half(b))
    ensures Less(a, b)
  {
  }

  lemma HalfSameLess(a: Word, b: Word)
    requires Half(a) == Half(b) && !Odd(a) && Odd(b)
    ensures Less(a, b)
  {
  }

  lemma {:induction false} ValueLess(a: Word, b: Word)
    requires Value(a) < Value(b)
    ensures Less(a, b)
    decreases Value(b)
  {
    hide Half, Odd, Less;
    ValueHalf(a);
    ValueHalf(b);
    if Value(Half(a)) < Value(Half(b)) {
      ValueLess(Half(a), Half(b));
      HalfLess(a, b);
    } else {
      ValueInjective(Half(a), Half(b));
      HalfSameLess(a, b);
    }
  }

  lemma LessAsymmetric(a: Word, b: Word)
    requires Less(a, b)
    ensures !Less(b, a) && a != b
  {
  }

  /** The unsigned comparison of words is the comparison of their values. */
  lemma LessIsValueLess(a: Word, b: Word)
    ensures Less(a, b) <==> Value(a) < Value(b)
  {
    hide Less;
    if Value(a) < Value(b) {
      ValueLess(a, b);
    } else if Value(b) < Value(a) {
      ValueLess(b, a);
      LessAsymmetric(b, a);
    } else {
      ValueInjective(a, b);
      if Less(a, b) {
        LessAsymmetric(a, b);
      }
    }
  }

  function Pow2(n: nat): nat
  {
    if n == 0 then 1 else 2 * Pow2(n - 1)
  }

  function LowMask(n: nat): Word
  {
    if n == 0 then 0 else Join(LowMask(n - 1), true)
  }

  lemma JoinSubMask(w: Word, h: Word)
    requires w & !Join(h, true) == 0
    ensures Half(w) & !h == 0
  {
  }

  lemma {:induction false} ValueBound(w: Word, n: nat)
    requires w & !LowMask(n) == 0
    ensures Value(w) < Pow2(n)
    decreases n
  {
    hide Half, Odd, Join;
    if n > 0 {
      JoinSubMask(w, LowMask(n - 1));
      ValueBound(Half(w), n - 1);
      ValueHalf(w);
    }
  }

  lemma ValueInRange(w: Word)
    ensures Value(w) < 0x1_0000_0000
  {
    assert LowMask(8) == 0xff;
    assert LowMask(16) == 0xffff;
    assert LowMask(24) == 0xff_ffff;
    assert LowMask(32) == 0xffff_ffff;
    assert Pow2(8) == 0x100;
    assert Pow2(16) == 0x1_0000;
    assert Pow2(24) == 0x100_0000;
    assert Pow2(32) == 0x1_0000_0000;
    ValueBound(w, 32);
  }
}
