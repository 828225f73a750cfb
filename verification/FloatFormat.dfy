/** Values of small floating-point formats, and the double built as the largest of them. */
module FloatFormat {
  import opened Bits
  import opened ScalarTypes
  import opened Arithmetic

  /** 2 to the power k. */
  ghost function Scale(k: int): (p: real)
    ensures p > 0.0
  {
    if k >= 0 then Pow2(k) as real else 1.0 / (Pow2(-k) as real)
  }

  lemma ScaleStep(k: int)
    ensures Scale(k + 1) == 2.0 * Scale(k)
  {
    if k < 0 {
      assert Pow2(-k) == 2 * Pow2(-k - 1);
      HalfInverse(Pow2(-k - 1) as real);
    }
  }

  lemma HalfInverse(x: real)
    requires x > 0.0
    ensures 2.0 * (1.0 / (2.0 * x)) == 1.0 / x
  {
  }

  lemma {:induction false} ScaleAdd(k: int, n: nat)
    ensures Scale(k + n) == Pow2(n) as real * Scale(k)
    decreases n
  {
    hide Scale;
    if n > 0 {
      ScaleAdd(k, n - 1);
      ScaleStep(k + n - 1);
    }
  }

  /** The standard exponent bias. */
  function Bias(e: nat): nat
    requires e > 0
  {
    Pow2(e - 1) - 1
  }

  /** The number an encoding stands for, sign aside: biased exponent ex and mantissa ma
      in a format with e exponent bits and m mantissa bits. */
  ghost function Value(e: nat, m: nat, ex: nat, ma: nat): real
    requires e > 0
  {
    if ex == 0 then ma as real * Scale(1 - Bias(e) - m) else (Pow2(m) + ma) as real * Scale(ex - Bias(e) - m)
  }

  /** The same number, in units of the smallest positive one. */
  function Ulps(m: nat, ex: nat, ma: nat): nat {
    if ex == 0 then ma else (Pow2(m) + ma) * Pow2(ex - 1)
  }

  lemma ValueInUlps(e: nat, m: nat, ex: nat, ma: nat)
    requires e > 0
    ensures Value(e, m, ex, ma) == Ulps(m, ex, ma) as real * Scale(1 - Bias(e) - m)
  {
    hide Scale, Bias, Pow2;
    if ex > 0 {
      ScaleAdd(1 - Bias(e) - m, ex - 1);
      Regroup((Pow2(m) + ma) as real, Pow2(ex - 1) as real, Scale(1 - Bias(e) - m));
      assert ((Pow2(m) + ma) * Pow2(ex - 1)) as real == (Pow2(m) + ma) as real * Pow2(ex - 1) as real;
    }
  }

  lemma Regroup(a: real, b: real, c: real)
    ensures a * (b * c) == (a * b) * c
  {
  }

  lemma UlpsBounds(m: nat, ex: nat, ma: nat)
    requires ma < Pow2(m)
    ensures Ulps(m, ex, ma) < Pow2(m) * Pow2(ex)
    ensures ex > 0 ==> Pow2(m) * Pow2(ex - 1) <= Ulps(m, ex, ma)
  {
    if ex > 0 {
      ScaledBounds(Pow2(m), ma, Pow2(ex - 1));
      assert Pow2(ex) == 2 * Pow2(ex - 1);
    }
  }

  lemma ScaledBounds(a: nat, b: nat, p: nat)
    requires b < a && p > 0
    ensures a * p <= (a + b) * p < a * (2 * p)
  {
    assert (a + b) * p == a * p + b * p;
    assert b * p < a * p;
  }

  /** Encodings compare as exponent and mantissa do. */
  lemma UlpsOrder(m: nat, ex: nat, ma: nat, ex': nat, ma': nat)
    requires ma < Pow2(m) && ma' < Pow2(m) && (ex < ex' || (ex == ex' && ma <= ma'))
    ensures Ulps(m, ex, ma) <= Ulps(m, ex', ma')
  {
    hide Pow2;
    if ex < ex' {
      UlpsBounds(m, ex, ma);
      UlpsBounds(m, ex', ma');
      Pow2Monotone(ex, ex' - 1);
      TimesMonotone(Pow2(ex), Pow2(ex' - 1), Pow2(m));
    } else if ex > 0 {
      TimesMonotone(Pow2(m) + ma, Pow2(m) + ma', Pow2(ex - 1));
    }
  }

  lemma TimesMonotone(a: nat, b: nat, p: nat)
    requires a <= b
    ensures a * p <= b * p && p * a <= p * b
  {
  }

  lemma ValueOrder(e: nat, m: nat, ex: nat, ma: nat, ex': nat, ma': nat)
    requires e > 0 && ma < Pow2(m) && ma' < Pow2(m) && (ex < ex' || (ex == ex' && ma <= ma'))
    ensures Value(e, m, ex, ma) <= Value(e, m, ex', ma')
  {
    hide Scale, Ulps, Value, Bias, Pow2;
    UlpsOrder(m, ex, ma, ex', ma');
    ValueInUlps(e, m, ex, ma);
    ValueInUlps(e, m, ex', ma');
  }

  /** A floating-point type as the constructors build it. */
  predicate IsFloat(t: ScalarType) {
    t.exponent > 0 && t.mantissa > 0
      && (t.nanRepr == NAN_IEEE_754 || t.nanRepr == NAN_NONE || t.nanRepr == NAN_EXTD_RANGE_MAX_MIN)
  }

  /** Its finite values are defined: IEEE 754, or finite values only with one NaN or none. Other types are said to have
      infinities, but nothing says which encodings they are. */
  predicate IsFormat(t: ScalarType) {
    IsFloat(t) && (t.finiteValuesOnly <==> t.nanRepr != NAN_IEEE_754)
  }

  /** The encoding stands for a finite number. */
  predicate Finite(t: ScalarType, ex: nat, ma: nat)
    requires IsFormat(t)
  {
    && ex < Pow2(t.exponent) && ma < Pow2(t.mantissa)
    && (t.nanRepr == NAN_IEEE_754 ==> ex != Pow2(t.exponent) - 1)
    && (t.nanRepr == NAN_EXTD_RANGE_MAX_MIN ==> !(ex == Pow2(t.exponent) - 1 && ma == Pow2(t.mantissa) - 1))
  }

  /** v is the largest finite value of the format. */
  ghost predicate IsLargest(t: ScalarType, v: real)
    requires IsFormat(t)
  {
    && (exists ex: nat, ma: nat :: Finite(t, ex, ma) && Value(t.exponent, t.mantissa, ex, ma) == v)
    && (forall ex: nat, ma: nat :: Finite(t, ex, ma) ==> Value(t.exponent, t.mantissa, ex, ma) <= v)
  }

  datatype Raw = Bits(raw: nat) | CheckFailed

  function MaxMantissa(t: ScalarType): (r: nat)
    requires IsFloat(t)
  {
    assert Pow2(t.mantissa) == 2 * Pow2(t.mantissa - 1);
    if t.nanRepr == NAN_EXTD_RANGE_MAX_MIN then Pow2(t.mantissa) - 2 else Pow2(t.mantissa) - 1
  }

  function MaxExponent(t: ScalarType): (r: nat)
    requires IsFloat(t)
  {
    assert Pow2(t.exponent) == 2 * Pow2(t.exponent - 1);
    if t.nanRepr == NAN_EXTD_RANGE_MAX_MIN || t.nanRepr == NAN_NONE then Pow2(t.exponent) - 1 else Pow2(t.exponent) - 2
  }

  /** The bits of the double that is taken to be the largest value. */
  function FloatingPointMax(t: ScalarType): Raw
    requires IsFloat(t)
  {
    if t.mantissa > 52 || t.exponent > 11 then CheckFailed
    else if (t.nanRepr == NAN_EXTD_RANGE_MAX_MIN || t.nanRepr == NAN_NONE) && t.exponent >= 11 then CheckFailed
    else
      DoubleExponentFits(t);
      Bits(Or(Shl(MaxMantissa(t), 52 - t.mantissa), Shl(MaxExponent(t) - Bias(t.exponent) + 1023, 52)))
  }

  lemma DoubleExponentFits(t: ScalarType)
    requires IsFloat(t)
    ensures Bias(t.exponent) <= MaxExponent(t)
    ensures t.exponent <= 11 && (t.nanRepr != NAN_IEEE_754 ==> t.exponent < 11) ==>
              MaxExponent(t) - Bias(t.exponent) + 1023 < 2047
  {
    assert Pow2(t.exponent) == 2 * Pow2(t.exponent - 1);
    if t.exponent <= 11 {
      Pow2Monotone(t.exponent, 11);
      assert Pow2(11) == 2048;
    }
    if t.exponent <= 10 {
      Pow2Monotone(t.exponent, 10);
      assert Pow2(10) == 1024;
    }
  }

  lemma ExponentFits(t: ScalarType)
    requires IsFloat(t)
    ensures MaxExponent(t) - Bias(t.exponent) + 1023 < 2047 <==>
            t.exponent <= (if t.nanRepr == NAN_IEEE_754 then 11 else 10)
  {
    TwoTo11();
    HalfPow2(11);
    HalfPow2(t.exponent);
    hide Pow2;
    if t.exponent <= 10 {
      Pow2Monotone(t.exponent, 10);
    } else if t.exponent > 11 {
      Pow2Monotone(11, t.exponent - 1);
    }
  }

  lemma MantissaFits(t: ScalarType)
    requires IsFloat(t)
    ensures MaxMantissa(t) < Pow2(52) <==> t.mantissa <= 52
  {
    hide Pow2;
    HalfPow2(t.mantissa);
    HalfPow2(52);
    if t.mantissa > 52 {
      Pow2Monotone(52, t.mantissa - 1);
    } else {
      Pow2Monotone(t.mantissa, 52);
    }
  }

  /** A double is built exactly when its fields can hold the largest mantissa and the largest exponent of the format,
      which is a matter of their widths: a format without infinities reaches one exponent further. */
  lemma BuiltIff(t: ScalarType)
    requires IsFloat(t)
    ensures FloatingPointMax(t).Bits? <==>
            t.mantissa <= 52 && t.exponent <= (if t.nanRepr == NAN_IEEE_754 then 11 else 10)
    ensures FloatingPointMax(t).Bits? <==>
            MaxMantissa(t) < Pow2(52) && MaxExponent(t) - Bias(t.exponent) + 1023 < 2047
  {
    hide Pow2, Or, Shl, MaxMantissa, MaxExponent, Bias;
    ExponentFits(t);
    MantissaFits(t);
  }

  /** Fields of the 64-bit pattern of a double, and its value. */
  function DoubleExponent(raw: nat): nat {
    (raw / Pow2(52)) % 2048
  }

  function DoubleMantissa(raw: nat): nat {
    raw % Pow2(52)
  }

  function DoubleNegative(raw: nat): bool {
    raw / Pow2(63) == 1
  }

  ghost function DoubleValue(raw: nat): real {
    var v := Value(11, 52, DoubleExponent(raw), DoubleMantissa(raw));
    if DoubleNegative(raw) then -v else v
  }

  ghost predicate NormalFinite(raw: nat) {
    raw < Pow2(64) && 0 < DoubleExponent(raw) < 2047
  }

  /** Mantissa and exponent of the built double sit in their fields. */
  lemma BuiltFields(t: ScalarType)
    requires IsFloat(t) && FloatingPointMax(t).Bits?
    ensures var raw, ex := FloatingPointMax(t).raw, MaxExponent(t) - Bias(t.exponent) + 1023;
            && ex >= 1023 && DoubleExponent(raw) == ex && DoubleMantissa(raw) == Shl(MaxMantissa(t), 52 - t.mantissa)
            && !DoubleNegative(raw) && NormalFinite(raw) && raw < Pow2(63)
  {
    hide Pow2, Or, MaxExponent, Bias;
    var m := t.mantissa;
    var raw, ex, ma := FloatingPointMax(t).raw, MaxExponent(t) - Bias(t.exponent) + 1023, Shl(MaxMantissa(t), 52 - m);
    DoubleExponentFits(t);
    Pow2Add(m, 52 - m);
    ShiftedBelow(MaxMantissa(t), Pow2(m), Pow2(52 - m));
    OrDisjoint(ma, ex, 52);
    assert raw == Pow2(52) * ex + ma;
    QuotientUnique(raw, Pow2(52), ex, ma);
    SmallMod(ex, 2048);
    BelowSign(raw, ex, ma);
  }

  lemma ShiftedBelow(a: nat, b: nat, p: nat)
    requires a < b && p > 0
    ensures a * p < b * p
  {
  }

  lemma BelowSign(raw: nat, ex: nat, ma: nat)
    requires raw == Pow2(52) * ex + ma && ma < Pow2(52) && ex < 2047
    ensures raw < Pow2(63) && raw / Pow2(63) == 0 && raw < Pow2(64)
  {
    hide Pow2;
    TwoTo11();
    Pow2Add(11, 52);
    assert raw < Pow2(52) * (ex + 1);
    TimesMonotone(ex + 1, 2048, Pow2(52));
    QuotientUnique(raw, Pow2(63), 0, raw);
    Pow2Monotone(63, 64);
  }

  /** The built double reads as a normal number with the largest exponent and mantissa. */
  lemma BuiltValue(t: ScalarType)
    requires IsFloat(t) && FloatingPointMax(t).Bits?
    ensures DoubleValue(FloatingPointMax(t).raw) ==
            (Pow2(t.mantissa) + MaxMantissa(t)) as real * Scale(MaxExponent(t) - Bias(t.exponent) - t.mantissa)
  {
    hide Pow2, Scale, DoubleValue, DoubleExponent, DoubleMantissa, DoubleNegative, Shl, Or, MaxMantissa, MaxExponent,
      Bias;
    BuiltFields(t);
    var ex := MaxExponent(t) - Bias(t.exponent) + 1023;
    DoubleReads(FloatingPointMax(t).raw, ex, Shl(MaxMantissa(t), 52 - t.mantissa));
    Rebase(t.mantissa, MaxMantissa(t), MaxExponent(t) - Bias(t.exponent));
  }

  lemma DoubleReads(raw: nat, ex: nat, ma: nat)
    requires DoubleExponent(raw) == ex > 0 && DoubleMantissa(raw) == ma && !DoubleNegative(raw)
    ensures DoubleValue(raw) == (Pow2(52) + ma) as real * Scale(ex - 1023 - 52)
  {
    hide Pow2, Scale, Bias;
    DoubleBias();
  }

  lemma DoubleBias()
    ensures Bias(11) == 1023
  {
  }

  lemma Rebase(m: nat, ma: nat, k: int)
    requires m <= 52
    ensures (Pow2(52) + Shl(ma, 52 - m)) as real * Scale(k - 52) == (Pow2(m) + ma) as real * Scale(k - m)
  {
    hide Pow2, Scale;
    Pow2Add(m, 52 - m);
    assert Pow2(52) == Pow2(m) * Pow2(52 - m);
    Distribute(Pow2(m), ma, Pow2(52 - m));
    ScaleAdd(k - 52, 52 - m);
    Regroup((Pow2(m) + ma) as real, Pow2(52 - m) as real, Scale(k - 52));
  }

  lemma Distribute(a: nat, b: nat, p: nat)
    ensures a * p + b * p == (a + b) * p && ((a + b) * p) as real == (a + b) as real * p as real
  {
  }

  /** The encoding with the largest exponent and mantissa is finite, and none that is finite lies above it. */
  lemma TopEncoding(t: ScalarType, ex: nat, ma: nat)
    requires IsFormat(t) && Finite(t, ex, ma)
    ensures Finite(t, MaxExponent(t), MaxMantissa(t))
    ensures Value(t.exponent, t.mantissa, ex, ma) <= Value(t.exponent, t.mantissa, MaxExponent(t), MaxMantissa(t))
  {
    assert Pow2(t.exponent) == 2 * Pow2(t.exponent - 1) && Pow2(t.mantissa) == 2 * Pow2(t.mantissa - 1);
    ValueOrder(t.exponent, t.mantissa, ex, ma, MaxExponent(t), MaxMantissa(t));
  }

  /** The built double is a normal finite one, and it is the largest finite value of the format
      exactly when the format is not an IEEE 754 one with a single exponent bit. */
  lemma LargestIff(t: ScalarType)
    requires IsFormat(t) && FloatingPointMax(t).Bits?
    ensures NormalFinite(FloatingPointMax(t).raw)
    ensures IsLargest(t, DoubleValue(FloatingPointMax(t).raw)) <==> !(t.nanRepr == NAN_IEEE_754 && t.exponent == 1)
  {
    hide Pow2, DoubleValue, FloatingPointMax, Scale, Value, Finite, MaxExponent, MaxMantissa, Bias, DoubleExponent,
      DoubleMantissa;
    BuiltFields(t);
    BuiltValue(t);
    var e, m := t.exponent, t.mantissa;
    var top := Value(e, m, MaxExponent(t), MaxMantissa(t));
    ZeroIsFinite(t);
    TopEncoding(t, 0, 0);
    forall ex: nat, ma: nat | Finite(t, ex, ma)
      ensures Value(e, m, ex, ma) <= top
    {
      TopEncoding(t, ex, ma);
    }
    SingleExponentBit(t);
    if MaxExponent(t) == 0 {
      SubnormalTop(t);
    } else {
      NormalTop(t);
    }
  }

  lemma ZeroIsFinite(t: ScalarType)
    requires IsFormat(t)
    ensures Finite(t, 0, 0)
  {
    assert Pow2(t.exponent) == 2 * Pow2(t.exponent - 1);
  }

  lemma SingleExponentBit(t: ScalarType)
    requires IsFloat(t)
    ensures MaxExponent(t) == 0 <==> t.nanRepr == NAN_IEEE_754 && t.exponent == 1
  {
    assert Pow2(t.exponent) == 2 * Pow2(t.exponent - 1);
    assert t.exponent > 1 ==> Pow2(t.exponent - 1) == 2 * Pow2(t.exponent - 2);
  }

  lemma NormalTop(t: ScalarType)
    requires IsFloat(t) && MaxExponent(t) > 0
    ensures Value(t.exponent, t.mantissa, MaxExponent(t), MaxMantissa(t)) ==
            (Pow2(t.mantissa) + MaxMantissa(t)) as real * Scale(MaxExponent(t) - Bias(t.exponent) - t.mantissa)
  {
    hide Pow2, Scale, MaxExponent, MaxMantissa, Bias;
  }

  /** A subnormal top encoding is read as a normal one, which is larger. */
  lemma SubnormalTop(t: ScalarType)
    requires IsFloat(t) && MaxExponent(t) == 0
    ensures Value(t.exponent, t.mantissa, MaxExponent(t), MaxMantissa(t)) <
            (Pow2(t.mantissa) + MaxMantissa(t)) as real * Scale(MaxExponent(t) - Bias(t.exponent) - t.mantissa)
  {
    SingleExponentBit(t);
    assert Bias(1) == 0;
    hide Scale, Pow2, MaxExponent;
    ScaleStep(-t.mantissa);
  }

  /** The smallest value is built by setting the sign bit, which negates the largest. */
  function RawMin(t: ScalarType): Raw
    requires IsFloat(t)
  {
    if !t.signed then CheckFailed
    else match FloatingPointMax(t)
         case Bits(raw) => Bits(Or(raw, Shl(1, 63)))
         case CheckFailed => CheckFailed
  }

  /** A smallest value is built exactly for signed types whose largest value is. */
  lemma MinBuiltIff(t: ScalarType)
    requires IsFloat(t)
    ensures RawMin(t).Bits? <==>
            t.signed && t.mantissa <= 52 && t.exponent <= (if t.nanRepr == NAN_IEEE_754 then 11 else 10)
  {
    hide FloatingPointMax, Or, Shl, Pow2;
    BuiltIff(t);
  }

  lemma MinIsNegatedMax(t: ScalarType)
    requires IsFloat(t) && RawMin(t).Bits?
    ensures DoubleValue(RawMin(t).raw) == -DoubleValue(FloatingPointMax(t).raw) && NormalFinite(RawMin(t).raw)
  {
    hide Pow2, Or, Value, FloatingPointMax;
    BuiltFields(t);
    var raw := FloatingPointMax(t).raw;
    OrDisjoint(raw, 1, 63);
    SignBit(raw);
  }

  lemma SignBit(raw: nat)
    requires raw < Pow2(63)
    ensures var neg := raw + Shl(1, 63);
            && DoubleExponent(neg) == DoubleExponent(raw) && DoubleMantissa(neg) == DoubleMantissa(raw)
            && DoubleNegative(neg) && !DoubleNegative(raw) && neg < Pow2(64)
  {
    TwoTo11();
    hide Pow2;
    var neg, p := raw + Shl(1, 63), Pow2(52);
    Pow2Add(11, 52);
    HalfPow2(64);
    QuotientUnique(neg, Pow2(63), 1, raw);
    QuotientUnique(raw, Pow2(63), 0, raw);
    var q := raw / p;
    assert raw == p * q + raw % p;
    assert neg == p * (q + 2048) + raw % p;
    QuotientUnique(neg, p, q + 2048, raw % p);
    assert (q + 2048) % 2048 == q % 2048;
  }

  lemma TwoTo11()
    ensures Pow2(11) == 2048
  {
  }

  /** An IEEE 754 format with one exponent bit whose built double is not its largest value. */
  lemma OneExponentBit()
    ensures var t := ScalarType(1, 2, true, 0, false, 1);
            IsFormat(t) && FloatingPointMax(t).Bits? && !IsLargest(t, DoubleValue(FloatingPointMax(t).raw))
  {
    hide Pow2, Scale, Value, DoubleValue, IsLargest, Or, Shl;
    LargestIff(ScalarType(1, 2, true, 0, false, 1));
  }
}
