/**
 * IEEE 754 binary32 bit patterns and the values they denote.
 *
 * `struct.unpack(">f", ...)` turns a 32-bit pattern into a Python float; every binary32
 * value is exactly representable as a binary64 value, so the decoding is exact and is
 * written out here: finite patterns become reals, exponent field 0xFF becomes an infinity
 * or NaN. The arithmetic the decoder applies afterwards (scaling and summing) is modelled
 * without rounding, but with IEEE's rules for infinities and NaN.
 */
module Binary32 {

  /** A Modbus register: one unsigned 16-bit word. */
  type Word16 = x: int | 0 <= x < 0x1_0000

  /** A 32-bit pattern, as `struct.pack(">HH", hi, lo)` lays it out. */
  type Word32 = x: int | 0 <= x < 0x1_0000_0000

  /** A float as Python holds it after decoding a binary32 pattern. */
  datatype Float = Finite(value: real) | Infinity(negative: bool) | NaN

  function Pow2(n: nat): (r: nat)
    ensures r >= 1
  {
    if n == 0 then 1 else 2 * Pow2(n - 1)
  }

  /** The big-endian concatenation of two 16-bit words, high word first. */
  function Word32Of(hi: Word16, lo: Word16): (w: Word32)
    ensures w / 0x1_0000 == hi && w % 0x1_0000 == lo
  {
    hi * 0x1_0000 + lo
  }

  /** Splitting a 32-bit pattern into its two words and joining them again gives it back. */
  lemma SplitJoin(w: Word32)
    ensures 0 <= w / 0x1_0000 < 0x1_0000
    ensures Word32Of(w / 0x1_0000, w % 0x1_0000) == w
  {
  }

  /** Two word pairs that join to the same pattern are the same pair. */
  lemma JoinInjective(hi: Word16, lo: Word16, hi': Word16, lo': Word16)
    requires Word32Of(hi, lo) == Word32Of(hi', lo')
    ensures hi == hi' && lo == lo'
  {
    var w := Word32Of(hi, lo);
    assert hi == w / 0x1_0000 == hi';
  }

  function SignBit(w: Word32): nat { w / 0x8000_0000 }
  function ExponentField(w: Word32): nat { (w / 0x80_0000) % 0x100 }
  function FractionField(w: Word32): nat { w % 0x80_0000 }

  /**
   * The value a binary32 pattern denotes: (-1)^s * 1.f * 2^(e-127) for a normal number,
   * (-1)^s * 0.f * 2^-126 for a subnormal one, an infinity when the exponent field is all
   * ones and the fraction is zero, NaN when it is all ones and the fraction is not.
   * With the significand read as an integer m, the value is m * 2^(e-150) (normal) or
   * m * 2^-149 (subnormal). Negative zero is the real 0.
   */
  function Decode(w: Word32): (f: Float)
    ensures f.Finite? <==> ExponentField(w) != 0xFF
    ensures f.NaN? <==> ExponentField(w) == 0xFF && FractionField(w) != 0
    ensures f.Infinity? ==> f.negative == (SignBit(w) == 1)
  {
    if ExponentField(w) == 0xFF then
      if FractionField(w) == 0 then Infinity(SignBit(w) == 1) else NaN
    else if SignBit(w) == 1 then
      Finite(-Magnitude(w))
    else
      Finite(Magnitude(w))
  }

  /** 2^k as a real, for any integer k. */
  function Pow2Real(k: int): (r: real)
    ensures r > 0.0
  {
    if k >= 0 then Pow2(k) as real else Half(-k)
  }

  /** 2^-n, by halving n times. */
  function Half(n: nat): (r: real)
    ensures r > 0.0
  {
    if n == 0 then 1.0 else Half(n - 1) / 2.0
  }

  /** 2^-n is the reciprocal of 2^n. */
  lemma {:induction false} HalfReciprocal(n: nat)
    ensures Half(n) * (Pow2(n) as real) == 1.0
  {
    if n > 0 {
      HalfReciprocal(n - 1);
      assert Half(n) * (Pow2(n) as real) == (Half(n - 1) / 2.0) * (2.0 * (Pow2(n - 1) as real));
    }
  }

  /**
   * The integer significand of a finite pattern with exponent field e and fraction f: the
   * fraction, plus the implicit leading bit 2^23 for a normal number (e != 0).
   */
  function SignificandOf(e: nat, f: nat): (s: nat)
    requires f < 0x80_0000
    ensures e == 0 ==> s < 0x80_0000
    ensures e != 0 ==> 0x80_0000 <= s < 2 * 0x80_0000
    ensures e == 0 || f == s - 0x80_0000
  {
    if e == 0 then f else 0x80_0000 + f
  }

  /** The power of two the significand is scaled by; subnormals share the smallest normal one. */
  function ExponentOf(e: nat): (x: int)
    ensures x >= -149 && (e != 0 ==> x == e - 150)
  {
    (if e == 0 then 1 else e) - 150
  }

  /** The value of a finite pattern, without its sign: significand times 2^exponent. */
  function Scaled(e: nat, f: nat): (m: real)
    requires f < 0x80_0000
    ensures m >= 0.0
  {
    MulNonNegative(SignificandOf(e, f) as real, Pow2Real(ExponentOf(e)));
    (SignificandOf(e, f) as real) * Pow2Real(ExponentOf(e))
  }

  /** The absolute value of a finite pattern. */
  function Magnitude(w: Word32): (m: real)
    requires ExponentField(w) != 0xFF
    ensures m >= 0.0
  {
    Scaled(ExponentField(w), FractionField(w))
  }

  lemma MulNonNegative(a: real, b: real)
    requires a >= 0.0 && b >= 0.0
    ensures a * b >= 0.0
  {
  }

  /** The sign bit and the two fields make up the whole pattern. */
  lemma Fields(w: Word32)
    ensures SignBit(w) <= 1 && ExponentField(w) < 0x100 && FractionField(w) < 0x80_0000
    ensures w == SignBit(w) * 0x8000_0000 + ExponentField(w) * 0x80_0000 + FractionField(w)
  {
    var q := w / 0x80_0000;
    assert w == q * 0x80_0000 + FractionField(w);
    assert q == SignBit(w) * 0x100 + ExponentField(w);
  }

  /** Setting the sign bit of a pattern negates what it denotes (IEEE sign-magnitude form). */
  lemma {:induction false} DecodeNegated(w: Word32)
    requires w < 0x8000_0000
    ensures Decode(w + 0x8000_0000) == Negated(Decode(w))
  {
    var w' := w + 0x8000_0000;
    Fields(w);
    Fields(w');
    assert SignBit(w) == 0 && SignBit(w') == 1;
    assert ExponentField(w') == ExponentField(w) && FractionField(w') == FractionField(w);
  }

  function Negated(x: Float): (r: Float)
    ensures x.Finite? ==> r == Finite(-x.value)
    ensures x.Infinity? ==> r == Infinity(!x.negative)
    ensures x.NaN? ==> r.NaN?
  {
    match x
    case Finite(v) => Finite(-v)
    case Infinity(n) => Infinity(!n)
    case NaN => NaN
  }

  /** The pattern 0x3FC00000 is 1.5. */
  lemma DecodeOnePointFive()
    ensures Decode(0x3FC0_0000) == Finite(1.5)
  {
    assert ExponentField(0x3FC0_0000) == 127;
    assert FractionField(0x3FC0_0000) == 0x40_0000;
    Pow2TwentyThree();
    HalfReciprocal(23);
    assert Magnitude(0x3FC0_0000) == Scaled(127, 0x40_0000) == (0xC0_0000 as real) * Half(23);
  }

  /** The all-zero pattern is 0. */
  lemma DecodeZero()
    ensures Decode(0) == Finite(0.0)
  {
    assert ExponentField(0) == 0 && FractionField(0) == 0;
  }

  lemma {:induction false} Pow2Add(a: nat, b: nat)
    ensures Pow2(a + b) == Pow2(a) * Pow2(b)
  {
    if a > 0 {
      Pow2Add(a - 1, b);
    }
  }

  lemma Pow2TwentyThree()
    ensures Pow2(23) == 0x80_0000
  {
    assert Pow2(1) == 2 && Pow2(2) == 4;
    Pow2Add(2, 2);
    Pow2Add(4, 4);
    Pow2Add(8, 8);
    Pow2Add(16, 4);
    Pow2Add(20, 2);
    Pow2Add(22, 1);
  }

  /** x * k for a float x and a real factor k, without rounding. */
  function Scale(x: Float, k: real): (r: Float)
    ensures x.NaN? ==> r.NaN?
    ensures r.Finite? <==> x.Finite?
    ensures x.Finite? ==> r.value == x.value * k
    ensures x.Infinity? ==> (r.NaN? <==> k == 0.0)
    ensures x.Infinity? && k != 0.0 ==> r == Infinity(x.negative != (k < 0.0))
  {
    match x
    case Finite(_) => Finite(x.value * k)
    case Infinity(n) => if k == 0.0 then NaN else Infinity(n != (k < 0.0))
    case NaN => NaN
  }

  /** x + y without rounding: NaN absorbs, opposite infinities give NaN. */
  function Add(x: Float, y: Float): (r: Float)
    ensures r.Finite? <==> x.Finite? && y.Finite?
    ensures x.Finite? && y.Finite? ==> r.value == x.value + y.value
    ensures r.NaN? <==> x.NaN? || y.NaN? || (x.Infinity? && y.Infinity? && x.negative != y.negative)
  {
    match (x, y)
    case (NaN, _) => NaN
    case (_, NaN) => NaN
    case (Infinity(a), Infinity(b)) => if a == b then x else NaN
    case (Infinity(_), Finite(_)) => x
    case (Finite(_), Infinity(_)) => y
    case (Finite(a), Finite(b)) => Finite(a + b)
  }

  /** Scaling twice is scaling by the product, for every factor (zero and negative included). */
  lemma ScaleScale(x: Float, a: real, b: real)
    ensures Scale(Scale(x, a), b) == Scale(x, a * b)
  {
    match x
    case Finite(v) =>
    case NaN =>
    case Infinity(n) =>
      if a != 0.0 && b != 0.0 {
        assert (a * b < 0.0) == ((a < 0.0) != (b < 0.0));
      }
  }

  /** A finite float scaled twice is its value times both factors. */
  lemma ScaleFiniteTwice(x: Float, a: real, b: real)
    requires x.Finite?
    ensures Scale(Scale(x, a), b) == Finite(x.value * a * b)
  {
  }

  /** Scaling distributes over addition, for every factor. */
  lemma ScaleAdd(x: Float, y: Float, k: real)
    ensures Scale(Add(x, y), k) == Add(Scale(x, k), Scale(y, k))
  {
  }
}
