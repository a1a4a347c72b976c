/** Binary interchange formats and correct rounding (IEEE 754-2019 sections 3.4 and 4.3.1). */
module Rounding {
  import opened Bits

  datatype Format = F32 | F64 {
    /** Precision: significand bits, the leading one included. */
    function P(): (p: nat) ensures p >= 24 { if F32? then 24 else 53 }
    function Bias(): int { if F32? then 127 else 1023 }
    function Emin(): int { if F32? then -126 else -1022 }
    /** The all-ones biased exponent. */
    function ExpMax(): nat { if F32? then 255 else 2047 }
    function Width(): nat { if F32? then 32 else 64 }
    /** Weight of the leading significand bit. */
    function Lead(): (l: nat) ensures l > 0 { Pow2(P() - 1) }
    function SignBit(): (s: nat) ensures s > 0 { Pow2(Width() - 1) }
    /** The magnitude pattern of infinity: the largest one that is not a NaN. */
    function Inf(): nat { Shl(ExpMax(), P() - 1) }

    /** The magnitude of bit pattern v: everything but the sign. */
    function Abs(v: nat): nat { Low(v, Width() - 1) }
    function Sign(v: nat): nat { Shr(v, Width() - 1) }
    predicate Pattern(v: nat) { v < 2 * SignBit() }

    predicate IsNan(v: nat) { Abs(v) > Inf() }
    predicate IsInf(v: nat) { Abs(v) == Inf() }
    predicate IsZero(v: nat) { Abs(v) == 0 }
    predicate Finite(v: nat) { Abs(v) < Inf() }

    /** Exponent of the last significand bit of magnitude pattern m. */
    function UlpExp(m: nat): int {
      var raw := Shr(m, P() - 1);
      if raw == 0 then Emin() - (P() - 1) else raw - Bias() - (P() - 1)
    }

    /** The value of magnitude pattern m. At `Inf()` this is the value the next binade would start
        with, as if the exponent range were unbounded. */
    function Mag(m: nat): real {
      var raw, frac := Shr(m, P() - 1), Low(m, P() - 1);
      Scale(if raw == 0 then frac as real else (Lead() + frac) as real, UlpExp(m))
    }

    /** The value of a finite pattern. */
    function Value(v: nat): real { if Sign(v) == 0 then Mag(Abs(v)) else -Mag(Abs(v)) }
  }

  function Distance(a: real, b: real): real { if a < b then b - a else a - b }

  /** m is x rounded to nearest, ties to even: no magnitude pattern is closer to x, and one that is
      as close is odd while m is even. Rounding to `Inf()` is overflow. */
  ghost predicate NearestEven(f: Format, m: nat, x: real) {
    && m <= f.Inf()
    && forall k: nat | k <= f.Inf() && k != m ::
         || Distance(f.Mag(m), x) < Distance(f.Mag(k), x)
         || (Distance(f.Mag(m), x) == Distance(f.Mag(k), x) && m % 2 == 0)
  }

  /** The fields of a magnitude pattern. */
  lemma Fields(f: Format, raw: nat, frac: nat)
    requires frac < f.Lead()
    ensures var m := Shl(raw, f.P() - 1) + frac;
      && Shr(m, f.P() - 1) == raw && Low(m, f.P() - 1) == frac
      && (raw == 0 ==> f.Mag(m) == Scale(frac as real, f.Emin() - (f.P() - 1)))
      && (raw > 0 ==> f.Mag(m) == Scale((f.Lead() + frac) as real, raw - f.Bias() - (f.P() - 1)))
  {
    SplitUnique(Shl(raw, f.P() - 1) + frac, f.P() - 1, raw, frac);
  }

  /** Consecutive patterns are one unit in the last place apart, across binades too. */
  lemma MagStep(f: Format, m: nat)
    ensures f.Mag(m + 1) == f.Mag(m) + Scale(1.0, f.UlpExp(m))
    ensures Scale(1.0, f.UlpExp(m)) > 0.0
  {
    var n := f.P() - 1;
    hide Shl, Shr, Low, Pow2, Scale;
    Split(m, n);
    SigStep(f, m);
    hide Format.Mag;
    ScaleMono(0.0, 1.0, f.UlpExp(m));
    if Low(m, n) + 1 < f.Lead() {
      Fields(f, Shr(m, n), Low(m, n) + 1);
    } else {
      MagCarry(f, Shr(m, n), m);
    }
  }

  lemma MagCarry(f: Format, raw: nat, m: nat)
    requires m == Shl(raw, f.P() - 1) + (f.Lead() - 1)
    ensures raw == 0 ==> f.Mag(m + 1) == Scale(f.Lead() as real, f.Emin() - (f.P() - 1))
    ensures raw > 0 ==> f.Mag(m + 1) == Scale(2.0 * f.Lead() as real, raw - f.Bias() - (f.P() - 1))
  {
    hide Shl, Shr, Low, Pow2, Scale;
    ShlAdd(raw, 1, f.P() - 1);
    ShlOne(f.P() - 1);
    assert m + 1 == Shl(raw + 1, f.P() - 1) + 0;
    Fields(f, raw + 1, 0);
    var l: real := f.Lead() as real;
    assert (f.Lead() + 0) as real == l;
    ScaleStep(l, raw - f.Bias() - (f.P() - 1));
  }

  lemma SigStep(f: Format, m: nat)
    ensures var s: nat := (if Shr(m, f.P() - 1) == 0 then 0 else f.Lead()) + Low(m, f.P() - 1);
      && f.Mag(m) == Scale(s as real, f.UlpExp(m))
      && Scale((s + 1) as real, f.UlpExp(m)) == f.Mag(m) + Scale(1.0, f.UlpExp(m))
      && (s + 1 == 2 * f.Lead() ==> (s + 1) as real == 2.0 * (f.Lead() as real))
  {
    hide Shl, Shr, Low, Pow2, Scale;
    var s: nat := (if Shr(m, f.P() - 1) == 0 then 0 else f.Lead()) + Low(m, f.P() - 1);
    ScaleAdd(s as real, 1.0, f.UlpExp(m));
    assert (s + 1) as real == s as real + 1.0;
  }

  lemma {:induction false} MagMono(f: Format, a: nat, b: nat)
    requires a <= b
    ensures f.Mag(a) <= f.Mag(b)
    ensures a < b ==> f.Mag(a) < f.Mag(b)
    decreases b
  {
    if a < b {
      hide *;
      MagMono(f, a, b - 1);
      MagStep(f, b - 1);
    }
  }

  lemma MagZero(f: Format, m: nat)
    ensures f.Mag(0) == 0.0
    ensures m > 0 <==> f.Mag(m) > 0.0
  {
    ShlOne(f.P() - 1);
    Fields(f, 0, 0);
    ScaleMono(0.0, 0.0, f.Emin() - (f.P() - 1));
    MagMono(f, 0, m);
  }

  /** Correct rounding determines its result. */
  lemma NearestUnique(f: Format, a: nat, b: nat, x: real)
    requires NearestEven(f, a, x) && NearestEven(f, b, x)
    ensures a == b
  {
    hide Format.Mag, Format.Inf;
    if a != b { assert Distance(f.Mag(a), x) == Distance(f.Mag(b), x) && a % 2 == b % 2 == 0; }
    if a + 1 < b { StrictlyBetween(f, a, b, x); }
    if b + 1 < a { StrictlyBetween(f, b, a, x); }
  }

  lemma StrictlyBetween(f: Format, a: nat, b: nat, x: real)
    requires a + 1 < b
    ensures || Distance(f.Mag(a + 1), x) < Distance(f.Mag(a), x)
            || Distance(f.Mag(a + 1), x) < Distance(f.Mag(b), x)
  {
    MagMono(f, a, a + 1);
    MagMono(f, a + 1, b);
  }

  /** An exactly representable value rounds to itself. */
  lemma NearestExact(f: Format, m: nat, x: real)
    requires m <= f.Inf() && x == f.Mag(m)
    ensures NearestEven(f, m, x)
  {
    forall k: nat | k <= f.Inf() && k != m
      ensures Distance(f.Mag(m), x) < Distance(f.Mag(k), x)
    {
      if k < m { MagMono(f, k, m); } else { MagMono(f, m, k); }
    }
  }

  /** Where x lies relative to the midpoint of the cell from m to m + 1 decides its rounding. */
  lemma NearestInCell(f: Format, m: nat, up: bool, x: real)
    requires m < f.Inf() && f.Mag(m) <= x <= f.Mag(m + 1)
    requires up ==>
      var d, d' := Distance(f.Mag(m), x), Distance(f.Mag(m + 1), x); d > d' || (d == d' && m % 2 == 1)
    requires !up ==>
      var d, d' := Distance(f.Mag(m), x), Distance(f.Mag(m + 1), x); d < d' || (d == d' && m % 2 == 0)
    ensures NearestEven(f, if up then m + 1 else m, x)
  {
    hide Format.Mag, Format.Inf;
    var r := if up then m + 1 else m;
    forall k: nat | k <= f.Inf() && k != r
      ensures Distance(f.Mag(r), x) < Distance(f.Mag(k), x)
          || (Distance(f.Mag(r), x) == Distance(f.Mag(k), x) && r % 2 == 0)
    {
      if k < m { MagMono(f, k, m); }
      else if k > m + 1 { MagMono(f, m + 1, k); }
    }
  }

  lemma NearestOverflow(f: Format, x: real)
    requires x >= f.Mag(f.Inf())
    ensures NearestEven(f, f.Inf(), x)
  {
    hide Format.Mag, Format.Inf;
    forall k: nat | k <= f.Inf() && k != f.Inf()
      ensures Distance(f.Mag(f.Inf()), x) < Distance(f.Mag(k), x)
    {
      MagMono(f, k, f.Inf());
    }
  }

  /** Every sig * 2^e with at most P bits and no digit below the last subnormal one is a value of
      the format, were its exponent range unbounded above. */
  lemma {:induction false} Representable(f: Format, sig: nat, e: int) returns (m: nat)
    requires sig < Pow2(f.P()) && e >= f.Emin() - (f.P() - 1)
    ensures f.Mag(m) == Scale(sig as real, e)
    decreases e - (f.Emin() - (f.P() - 1))
  {
    hide Shl, Shr, Low, Scale, Format.Mag;
    var l, n := f.Lead(), f.P() - 1;
    assert Pow2(f.P()) == 2 * l;
    if sig >= l {
      Fields(f, e + f.Bias() + n, sig - l);
      m := Shl(e + f.Bias() + n, n) + (sig - l);
    } else if e == f.Emin() - n {
      ShlOne(n);
      Fields(f, 0, sig);
      m := sig;
    } else {
      m := Representable(f, 2 * sig, e - 1);
      ScaleStep(sig as real, e - 1);
      assert 2.0 * (sig as real) == (2 * sig) as real;
    }
  }
}
