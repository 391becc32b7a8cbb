/**
 The numeric value parsers of pico_sim: `parse_u64`, `parse_int` and
 `parse_double`.

 Each is a pure function from the value text to `Option`; writing the result
 into the specification record (and leaving the record alone on `None`) is
 the dispatcher's business.
 */
module Numbers {
  import opened CText

  /** `parse_int` rejects values above 0x7ffffff (2^27 - 1). */
  const INT_CAP: nat := 0x7ffffff

  function Pow10(n: nat): (r: nat)
    ensures r >= 1
  {
    if n == 0 then 1 else 10 * Pow10(n - 1)
  }

  /** Exact positional value of a digit string, read left to right into `acc`. */
  function Horner(s: string, acc: nat): nat
    requires AllDigits(s)
    decreases |s|
  {
    if |s| == 0 then acc else Horner(s[1..], acc * 10 + DigitValue(s[0]))
  }

  /** The exact base-10 value of a digit string; the empty string denotes 0. */
  function DecimalValue(s: string): nat
    requires AllDigits(s)
  {
    Horner(s, 0)
  }

  /** The `uint64_t` accumulator loop of `parse_u64`: every step wraps modulo 2^64. */
  function WrapHorner(s: string, acc: U64): U64
    requires AllDigits(s)
    decreases |s|
  {
    if |s| == 0 then acc else WrapHorner(s[1..], (acc * 10 + DigitValue(s[0])) % TWO_64)
  }

  /** Decimal rendering of a number, the inverse of DecimalValue on canonical text. */
  function ToDecimal(n: nat): (s: string)
    ensures |s| > 0 && AllDigits(s)
  {
    if n < 10 then [DigitChar(n)] else ToDecimal(n / 10) + [DigitChar(n % 10)]
  }

  /** `parse_u64`: a value made only of digits (the empty value included, which
      yields 0); the value is taken modulo 2^64. */
  function ParseU64(val: string): (r: Option<U64>)
    ensures r.Some? <==> AllDigits(val)
    ensures r.Some? ==> r.value == DecimalValue(val) % TWO_64
  {
    var n := DigitRun(val);
    if n < |val| then
      None
    else
      assert val[..n] == val;
      WrapHornerIsModulo(val, 0);
      Some(WrapHorner(val, 0))
  }

  /** `parse_int`: `parse_u64`, then the (already wrapped) value must not exceed INT_CAP. */
  function ParseInt(val: string): (r: Option<int>)
    ensures r.Some? <==> AllDigits(val) && DecimalValue(val) % TWO_64 <= INT_CAP
    ensures r.Some? ==> 0 <= r.value <= INT_CAP && r.value == DecimalValue(val) % TWO_64
  {
    match ParseU64(val)
    case None => None
    case Some(v) => if v > INT_CAP then None else Some(v as int)
  }

  /** Exact value of the fraction digits as `parse_double` adds them: the
      place value `decimal` is divided by ten before each digit is added. */
  function FracSum(s: string, decimal: real): real
    requires AllDigits(s)
    decreases |s|
  {
    if |s| == 0 then 0.0
    else (DigitValue(s[0]) as real) * (decimal / 10.0) + FracSum(s[1..], decimal / 10.0)
  }

  /** `val` is an integer part, one '.', and a fraction part, split at `p`. */
  predicate DotAt(val: string, p: int) {
    0 <= p < |val| && val[p] == '.' && AllDigits(val[..p]) && AllDigits(val[p + 1..])
  }

  /** The language `parse_double` accepts: digit* ('.' digit*)?. */
  predicate DecimalText(val: string) {
    AllDigits(val) || exists p | 0 <= p < |val| :: DotAt(val, p)
  }

  /** The exact value denoted by an integer part and a fraction part. */
  function FixedPoint(whole: string, frac: string): real
    requires AllDigits(whole) && AllDigits(frac)
  {
    DecimalValue(whole) as real + (DecimalValue(frac) as real) / (Pow10(|frac|) as real)
  }

  /** `parse_double`, with the floating-point accumulation replaced by its exact value. */
  function ParseDouble(val: string): (r: Option<real>)
    ensures r.Some? <==> DecimalText(val)
    ensures AllDigits(val) ==> r == Some(DecimalValue(val) as real)
    ensures forall p :: DotAt(val, p) ==> r == Some(FixedPoint(val[..p], val[p + 1..]))
  {
    var n := DigitRun(val);
    var whole := DecimalValue(val[..n]) as real;
    if n < |val| && val[n] == '.' then
      var frac := val[n + 1..];
      var m := DigitRun(frac);
      if m < |frac| then
        NoDotSplit(val, n);
        None
      else
        assert frac[..m] == frac;
        assert DotAt(val, n);
        DotAtUnique(val, n);
        FracSumIsScaledValue(frac, 1.0);
        Some(whole + FracSum(frac, 1.0))
    else if n < |val| then
      NoDotSplit(val, n);
      None
    else
      assert val[..n] == val;
      NoDotInDigits(val);
      Some(whole)
  }

  /* ---------------------------------------------------------------- lemmas */

  /** One wrapped accumulation step agrees with the exact step modulo 2^64. */
  lemma WrapStep(a: nat, d: nat)
    ensures ((a % TWO_64) * 10 + d) % TWO_64 == (a * 10 + d) % TWO_64
  {
    var q := a / TWO_64;
    var r := a % TWO_64;
    var y := r * 10 + d;
    assert a * 10 + d == y + (q * 10) * TWO_64;
    ModUnique(a * 10 + d, q * 10 + y / TWO_64, y % TWO_64);
  }

  /** Remainders modulo 2^64 are unique. */
  lemma ModUnique(y: nat, a: int, r: int)
    requires 0 <= r < TWO_64 && y == a * TWO_64 + r
    ensures y % TWO_64 == r
  {
  }

  /** The wrapping accumulator computes the exact decimal value modulo 2^64. */
  lemma {:induction false} WrapHornerIsModulo(s: string, acc: nat)
    requires AllDigits(s)
    ensures WrapHorner(s, acc % TWO_64) == Horner(s, acc) % TWO_64
    decreases |s|
  {
    if |s| > 0 {
      var d := DigitValue(s[0]);
      WrapStep(acc, d);
      WrapHornerIsModulo(s[1..], acc * 10 + d);
    }
  }

  /** Accumulating into `acc` shifts it left by as many places as there are digits. */
  lemma {:induction false} HornerShift(s: string, acc: nat)
    requires AllDigits(s)
    ensures Horner(s, acc) == acc * Pow10(|s|) + DecimalValue(s)
    decreases |s|
  {
    if |s| > 0 {
      var d := DigitValue(s[0]);
      var p := Pow10(|s| - 1);
      HornerShift(s[1..], acc * 10 + d);
      HornerShift(s[1..], d);
      assert DecimalValue(s) == d * p + DecimalValue(s[1..]) by {
        assert Horner(s, 0) == Horner(s[1..], d);
      }
      assert (acc * 10 + d) * p == acc * (10 * p) + d * p;
    }
  }

  /** Appending a digit multiplies the value by ten and adds the digit. */
  lemma {:induction false} HornerSnoc(s: string, c: char, acc: nat)
    requires AllDigits(s) && IsDigit(c)
    ensures AllDigits(s + [c])
    ensures Horner(s + [c], acc) == Horner(s, acc) * 10 + DigitValue(c)
    decreases |s|
  {
    if |s| == 0 {
      assert s + [c] == [c];
    } else {
      assert (s + [c])[1..] == s[1..] + [c];
      HornerSnoc(s[1..], c, acc * 10 + DigitValue(s[0]));
    }
  }

  /** ToDecimal renders exactly the number it is given. */
  lemma {:induction false} ToDecimalValue(n: nat)
    ensures DecimalValue(ToDecimal(n)) == n
  {
    if n < 10 {
      assert Horner(ToDecimal(n), 0) == Horner([], n);
    } else {
      ToDecimalValue(n / 10);
      HornerSnoc(ToDecimal(n / 10), DigitChar(n % 10), 0);
    }
  }

  /** Round trip: `parse_u64` of a rendered number gives it back modulo 2^64. */
  lemma U64RoundTrip(n: nat)
    ensures ParseU64(ToDecimal(n)) == Some(n % TWO_64)
  {
    ToDecimalValue(n);
  }

  /** `parse_int` accepts a rendered number exactly when its wrapped value is within the cap. */
  lemma IntRoundTrip(n: nat)
    ensures ParseInt(ToDecimal(n)) == if n % TWO_64 <= INT_CAP then Some(n % TWO_64) else None
  {
    ToDecimalValue(n);
  }

  /** Every number up to the cap parses to itself; every larger 64-bit number is rejected. */
  lemma IntCapBoundary(n: nat)
    requires n < TWO_64
    ensures n <= INT_CAP ==> ParseInt(ToDecimal(n)) == Some(n)
    ensures n > INT_CAP ==> ParseInt(ToDecimal(n)) == None
  {
    IntRoundTrip(n);
  }

  /** Because the comparison is made after the 64-bit wrap, 2^64 + n slips through as n. */
  lemma IntAcceptsWrappedValue(n: nat)
    requires n <= INT_CAP
    ensures ParseInt(ToDecimal(TWO_64 + n)) == Some(n)
  {
    IntRoundTrip(TWO_64 + n);
  }

  /** `decimal` times the fraction n / k. */
  function Scaled(decimal: real, n: nat, k: nat): real
    requires k > 0
  {
    decimal * (n as real) / (k as real)
  }

  /** The fraction accumulator is the fraction's decimal value scaled by the place value. */
  lemma {:induction false} FracSumIsScaledValue(s: string, decimal: real)
    requires AllDigits(s)
    ensures FracSum(s, decimal) == Scaled(decimal, DecimalValue(s), Pow10(|s|))
    decreases |s|
  {
    if |s| > 0 {
      var d := DigitValue(s[0]);
      var rest := s[1..];
      var p := Pow10(|rest|);
      FracSumIsScaledValue(rest, decimal / 10.0);
      assert DecimalValue(s) == d * p + DecimalValue(rest) by {
        HornerShift(rest, d);
        assert Horner(s, 0) == Horner(rest, d);
      }
      assert Pow10(|s|) == 10 * p;
      PlaceValueStep(d, decimal, DecimalValue(rest), p);
    }
  }

  /** The arithmetic step of FracSumIsScaledValue: prepending digit `d` to a fraction r / p. */
  lemma PlaceValueStep(d: nat, decimal: real, r: nat, p: nat)
    requires p > 0
    ensures (d as real) * (decimal / 10.0) + Scaled(decimal / 10.0, r, p) == Scaled(decimal, d * p + r, 10 * p)
  {
    var dr, rr, pr := d as real, r as real, p as real;
    var big, small := Scaled(decimal, d * p + r, 10 * p), Scaled(decimal / 10.0, r, p);
    assert big == decimal * (dr * pr + rr) / (10.0 * pr);
    assert small == (decimal / 10.0) * rr / pr;
    assert big * (10.0 * pr) == decimal * (dr * pr + rr);
    assert small * (10.0 * pr) == decimal * rr;
    assert ((d as real) * (decimal / 10.0)) * (10.0 * pr) == decimal * dr * pr;
  }

  lemma NoDotInDigits(val: string)
    requires AllDigits(val)
    ensures forall p :: !DotAt(val, p)
  {
  }

  /** The only possible split point of a decimal text is where its digit run stops. */
  lemma DotAtUnique(val: string, n: nat)
    requires n == DigitRun(val)
    ensures forall p :: DotAt(val, p) ==> p == n
  {
    forall p | DotAt(val, p)
      ensures p == n
    {
      DigitRunUnique(val, p);
    }
  }

  /** When the digit run is followed by anything but a well-formed fraction, there is no split. */
  lemma NoDotSplit(val: string, n: nat)
    requires n == DigitRun(val) && n < |val|
    requires val[n] == '.' ==> DigitRun(val[n + 1..]) < |val[n + 1..]|
    ensures !DecimalText(val)
  {
    DotAtUnique(val, n);
    assert !AllDigits(val) by {
      assert !IsDigit(val[n]);
    }
  }

  /** The accepted corner cases: "", ".", "5." and "0.25". */
  lemma DoubleAcceptsExamples()
    ensures ParseDouble("") == Some(0.0)
    ensures ParseDouble(".") == Some(0.0)
    ensures ParseDouble("5.") == Some(5.0)
    ensures ParseDouble("0.25") == Some(0.25)
  {
    assert DotAt(".", 0);
    assert DotAt("5.", 1);
    assert DotAt("0.25", 1);
    assert "0.25"[2..] == "25";
  }

  /** A sign, an exponent and a second '.' are all rejected. */
  lemma DoubleRejectsExamples()
    ensures ParseDouble("-1") == None
    ensures ParseDouble("1e5") == None
    ensures ParseDouble("1.2.3") == None
  {
    assert "1e5"[1] == 'e';
    assert "1.2.3"[3] == '.';
  }
}
