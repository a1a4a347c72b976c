/** The integer-only IEEE 754 arithmetic of the compile-time evaluator (srcql/comptime.qela). Bit
    patterns are read as unsigned numbers; working values are kept in `I64`, so that every
    assignment proves that the machine word does not overflow. */
module SoftFloat {
  import opened Common
  import opened Bits
  import opened Rounding

  // ----- rounding to odd -----

  /** t is ext itself, or strictly within s of it. */
  ghost predicate Near(ext: nat, s: nat, t: real) {
    if s == 0 then t == ext as real else ext as real - s as real < t < ext as real + s as real
  }

  /** t is represented by ext with its last bit sticky: an even ext is exact, an odd one is within
      one of t. */
  ghost predicate Jammed(ext: nat, t: real) { Near(ext, ext % 2, t) }

  /** How far a value may be from ext when the sticky bit is the last bit or the one before it. */
  function Slack(ext: nat): nat {
    if ext % 4 == 0 then 0 else if ext % 4 == 2 then 2 else 1
  }

  /** The sticky bit is possibly one place further up. This is still enough to round correctly
      three places up. */
  ghost predicate Guarded(ext: nat, t: real) { Near(ext, Slack(ext), t) }

  lemma NearInside(ext: nat, s: nat, t: real, lo: nat, hi: nat)
    requires Near(ext, s, t) && lo + s <= ext && ext + s <= hi && (s == 0 ==> lo < ext < hi)
    ensures lo as real < t < hi as real
  {}

  /** Shifts right and ors a one into the result if a one was shifted out. */
  function ShrJam(v: nat, sh: int): nat
  {
    if sh <= 0 then v
    else if sh >= 63 then (if v != 0 then 1 else 0)
    else
      var r := Shr(v, sh);
      if And(v, Pow2(sh) - 1) != 0 then Or(r, 1) else r
  }

  lemma {:induction false} ShrSmall(v: nat, n: nat)
    requires v < Pow2(n)
    ensures Shr(v, n) == 0 && Low(v, n) == v
  {
    if n > 0 { ShrSmall(v / 2, n - 1); }
  }

  /** What a sticky shift computes, on numbers of any size. */
  function Jam(v: nat, sh: nat): nat {
    var q := Shr(v, sh);
    if Low(v, sh) == 0 then q else q - q % 2 + 1
  }

  lemma ShrJamValue(v: nat, sh: nat)
    requires v < Pow2(63)
    ensures ShrJam(v, sh) == Jam(v, sh)
  {
    if 0 < sh < 63 {
      AndMask(v, sh);
      OrOne(Shr(v, sh));
    } else if sh >= 63 {
      Pow2Mono(63, sh);
      ShrSmall(v, sh);
    }
  }

  lemma {:induction false} FourDivides(q: nat, s: nat)
    requires s >= 2
    ensures Shl(q, s) % 4 == 0 && Pow2(s) % 4 == 0
  {
    if s > 2 { FourDivides(q, s - 1); }
  }

  /** A guarded value whose shifted-out part is not zero lies strictly between two multiples. */
  lemma GuardedCell(ext: nat, sh: int, t: real)
    requires 1 <= sh && Guarded(ext, t) && Low(ext, sh) != 0
    ensures Shl(Shr(ext, sh), sh) as real < t < Shl(Shr(ext, sh) + 1, sh) as real
  {
    hide Shl, Shr, Low, Pow2, Slack, Near;
    SlackCell(ext, sh);
    NearInside(ext, Slack(ext), t, Shl(Shr(ext, sh), sh), Shl(Shr(ext, sh) + 1, sh));
  }

  lemma SlackCell(ext: nat, sh: int)
    requires 1 <= sh && Low(ext, sh) != 0
    ensures var s, lo, hi := Slack(ext), Shl(Shr(ext, sh), sh), Shl(Shr(ext, sh) + 1, sh);
      lo + s <= ext && ext + s <= hi && lo < ext < hi
  {
    var q := Shr(ext, sh);
    Split(ext, sh);
    ShlAdd(q, 1, sh);
    ShlOne(sh);
    if sh >= 2 {
      FourDivides(q, sh);
      hide Shl, Shr, Low, Pow2;
      SlackOfSum(Shl(q, sh), Low(ext, sh), Pow2(sh));
    } else {
      Doubling(q);
      OneBit(q);
    }
  }

  lemma SlackOfSum(a: nat, r: nat, p: nat)
    requires a % 4 == 0 && p % 4 == 0 && 0 < r < p
    ensures Slack(a + r) <= r && r + Slack(a + r) <= p
  {
    assert (a + r) % 4 == r % 4;
    if r % 4 == 2 { assert r >= 2 && p - r >= 2 by { assert (p - r) % 4 == 2; } }
  }

  lemma OneBit(q: nat)
    ensures Slack(2 * q + 1) == 1 && Pow2(1) == 2
  {
    if q % 2 == 0 { assert 2 * q + 1 == 4 * (q / 2) + 1; } else { assert 2 * q + 1 == 4 * (q / 2) + 3; }
  }

  lemma ShrJamTracks(ext: nat, sh: int, t: real)
    requires 1 <= sh && ext < Pow2(63) && Guarded(ext, t)
    ensures Jammed(ShrJam(ext, sh), Scale(t, -sh))
  {
    ShrJamValue(ext, sh);
    JamTracks(ext, sh, t);
  }

  /** Shifting a guarded value right leaves the jammed representation of the scaled value. */
  lemma JamTracks(ext: nat, sh: int, t: real)
    requires 1 <= sh && Guarded(ext, t)
    ensures Jammed(Jam(ext, sh), Scale(t, -sh))
  {
    var q := Shr(ext, sh);
    if Low(ext, sh) != 0 {
      GuardedCell(ext, sh, t);
      hide Shl, Shr, Low, Scale, Pow2;
      JamInside(q, sh, t);
      OddJammed(q, Scale(t, -sh));
    } else if ext % 4 == 2 {
      OneDigit(ext, sh);
      hide Shl, Shr, Low, Scale, Pow2;
      HalfReal(t);
      HalfJammed(q, t);
    } else {
      Split(ext, sh);
      EvenShl(q, sh);
      hide Shl, Shr, Low, Scale, Pow2;
      EvenSlack(ext);
      ScaleBack(q, sh);
      ExactJammed(q);
    }
  }

  lemma OddJammed(q: nat, t: real)
    requires q as real < t < q as real + 1.0
    ensures Jammed(q - q % 2 + 1, t)
  {
    assert (q - q % 2 + 1) % 2 == 1;
    assert (q + 1) as real == q as real + 1.0;
  }

  lemma HalfJammed(q: nat, t: real)
    requires 2 * q % 4 == 2 && Guarded(2 * q, t)
    ensures Jammed(q, t / 2.0)
  {
    assert q % 2 == 1;
    assert (2 * q) as real == 2.0 * (q as real);
  }

  lemma EvenSlack(x: nat)
    requires x % 2 == 0 && x % 4 != 2
    ensures Slack(x) == 0
  {}

  lemma ExactJammed(q: nat)
    ensures Jammed(q, q as real)
  {}

  lemma JamInside(q: nat, sh: int, t: real)
    requires sh >= 1 && Shl(q, sh) as real < t < Shl(q + 1, sh) as real
    ensures q as real < Scale(t, -sh) < q as real + 1.0
  {
    hide Shl, Scale;
    ScaleBack(q, sh);
    ScaleBack(q + 1, sh);
    ScaleMono(Shl(q, sh) as real, t, -sh);
    ScaleMono(t, Shl(q + 1, sh) as real, -sh);
  }

  lemma OneDigit(ext: nat, sh: int)
    requires sh >= 1 && Low(ext, sh) == 0 && ext % 4 == 2
    ensures sh == 1 && ext == 2 * Shr(ext, sh)
  {
    Split(ext, sh);
    if sh >= 2 { FourDivides(Shr(ext, sh), sh); }
  }

  lemma HalfReal(t: real)
    ensures Scale(t, -1) == t / 2.0
  {}

  lemma ScaleBack(q: nat, n: int)
    requires n >= 0
    ensures Scale(Shl(q, n) as real, -n) == q as real
  {
    ScaleShl(q, n);
    ScaleScale(q as real, n, -n);
  }

  // ----- packing -----

  lemma ScaleEighth(t: real, e: int)
    ensures Scale(t, e - 3) == Scale(t / 8.0, e)
  {
    ScaleStep(t / 8.0, e - 1);
    ScaleStep(t / 4.0, e - 2);
    ScaleStep(t / 2.0, e - 3);
  }

  /** Scaling keeps the side of the midpoint on which a value lies. */
  lemma CellOrder(s: real, u: real, e: int)
    requires s <= u <= s + 1.0
    ensures Scale(s, e) <= Scale(u, e) <= Scale(s + 1.0, e)
    ensures var lo, hi := Distance(Scale(s, e), Scale(u, e)), Distance(Scale(s + 1.0, e), Scale(u, e));
      && (u - s < 0.5 ==> lo < hi) && (u - s > 0.5 ==> lo > hi) && (u - s == 0.5 ==> lo == hi)
  {
    hide Scale;
    ScaleMono(s, u, e);
    ScaleMono(u, s + 1.0, e);
    ScaleAdd(u, s, e);
    ScaleAdd(s + 1.0, u, e);
    ScaleMono(u - s, s + 1.0 - u, e);
    ScaleMono(s + 1.0 - u, u - s, e);
  }

  /** The last three bits of a guarded significand say on which side of the midpoint it lies. */
  lemma TailSide(sig: nat, tail: nat, t: real)
    requires tail < 8 && Guarded(8 * sig + tail, t)
    ensures sig as real <= t / 8.0 <= sig as real + 1.0
    ensures tail < 4 ==> t / 8.0 - sig as real < 0.5
    ensures tail == 4 ==> t / 8.0 - sig as real == 0.5
    ensures tail > 4 ==> t / 8.0 - sig as real > 0.5
  {
    TailSlack(sig, tail);
    hide Slack;
    assert (8 * sig + tail) as real == 8.0 * (sig as real) + tail as real;
  }

  lemma TailSlack(sig: nat, tail: nat)
    requires tail < 8
    ensures Slack(8 * sig + tail) == [0, 1, 2, 1, 0, 1, 2, 1][tail]
  {
    assert 8 * sig + tail == 4 * (2 * sig + tail / 4) + tail % 4;
  }

  /** Rounding a guarded significand on its last three bits rounds the value it stands for. */
  lemma RoundSignificand(f: Format, m: nat, sig: nat, tail: nat, e: int, t: real)
    requires m < f.Inf() && m % 2 == sig % 2
    requires f.Mag(m) == Scale(sig as real, e) && f.Mag(m + 1) == Scale(sig as real + 1.0, e)
    requires tail < 8 && Guarded(8 * sig + tail, t)
    ensures NearestEven(f, if tail > 4 || (tail == 4 && m % 2 == 1) then m + 1 else m, Scale(t, e - 3))
  {
    hide Scale, Guarded, Format.Mag, Format.Inf;
    TailSide(sig, tail, t);
    ScaleEighth(t, e);
    CellOrder(sig as real, t / 8.0, e);
    NearestInCell(f, m, tail > 4 || (tail == 4 && m % 2 == 1), Scale(t, e - 3));
  }

  lemma WordSizes()
    ensures Pow2(57) == 0x200_0000_0000_0000 && Pow2(62) == 0x4000_0000_0000_0000 && Pow2(63) == 0x8000_0000_0000_0000
  {
    assert Pow2(8) == 0x100;
    assert Pow2(15) == 0x8000;
    assert Pow2(22) == 0x40_0000;
    assert Pow2(29) == 0x2000_0000;
    assert Pow2(36) == 0x10_0000_0000;
    assert Pow2(43) == 0x800_0000_0000;
    assert Pow2(50) == 0x4_0000_0000_0000;
    assert Pow2(57) == 0x200_0000_0000_0000;
  }

  /** The fields of a normal number with significand sig and exponent exp. */
  lemma NormalPattern(f: Format, exp: int, sig: nat) returns (m: nat)
    requires exp >= f.Emin() && f.Lead() <= sig < 2 * f.Lead()
    ensures m == Shl(exp + f.Bias(), f.P() - 1) + (sig - f.Lead())
    ensures f.Mag(m) == Scale(sig as real, exp - (f.P() - 1))
    ensures f.Mag(m + 1) == Scale(sig as real + 1.0, exp - (f.P() - 1))
    ensures m % 2 == sig % 2
    ensures exp + f.Bias() < f.ExpMax() ==> m < f.Inf()
    ensures exp + f.Bias() >= f.ExpMax() ==> m >= f.Inf()
  {
    hide Format.Mag, Format.UlpExp, Format.Inf, Scale, Shl, Pow2;
    m := Shl(exp + f.Bias(), f.P() - 1) + (sig - f.Lead());
    NormalFields(f, exp, sig, m);
    NormalParity(exp + f.Bias(), f.P() - 1, sig);
    InfOrder(f, exp + f.Bias(), sig - f.Lead());
    hide *;
    NextMag(f, m, sig, exp - (f.P() - 1));
  }

  lemma NextMag(f: Format, m: nat, sig: nat, e: int)
    requires f.Mag(m) == Scale(sig as real, e) && f.UlpExp(m) == e
    ensures f.Mag(m + 1) == Scale(sig as real + 1.0, e)
  {
    hide *;
    MagStep(f, m);
    ScaleAdd(sig as real, 1.0, e);
  }

  lemma NormalFields(f: Format, exp: int, sig: nat, m: nat)
    requires exp >= f.Emin() && f.Lead() <= sig < 2 * f.Lead()
    requires m == Shl(exp + f.Bias(), f.P() - 1) + (sig - f.Lead())
    ensures f.Mag(m) == Scale(sig as real, exp - (f.P() - 1)) && f.UlpExp(m) == exp - (f.P() - 1)
  {
    hide Scale, Shl, Shr, Low, Pow2, Format.Mag;
    Fields(f, exp + f.Bias(), sig - f.Lead());
    SplitUnique(m, f.P() - 1, exp + f.Bias(), sig - f.Lead());
  }

  lemma NormalParity(raw: nat, n: nat, sig: nat)
    requires n > 0 && sig >= Pow2(n)
    ensures (Shl(raw, n) + (sig - Pow2(n))) % 2 == sig % 2
  {
    hide Shl, Pow2;
    EvenShl(raw, n);
  }

  lemma InfOrder(f: Format, raw: nat, frac: nat)
    requires frac < f.Lead()
    ensures raw < f.ExpMax() <==> Shl(raw, f.P() - 1) + frac < f.Inf()
  {
    hide Shl, Pow2;
    if raw < f.ExpMax() { ShlMono(raw, f.ExpMax(), f.P() - 1); } else { ShlMono(f.ExpMax(), raw, f.P() - 1); }
  }

  /** The same for a subnormal significand. */
  lemma SubnormalPattern(f: Format, sig: nat)
    requires sig < f.Lead()
    ensures f.Mag(sig) == Scale(sig as real, f.Emin() - (f.P() - 1))
    ensures f.Mag(sig + 1) == Scale(sig as real + 1.0, f.Emin() - (f.P() - 1))
    ensures f.Lead() < f.Inf()
  {
    var n := f.P() - 1;
    hide Scale, Shl, Shr, Low, Format.Mag;
    ShlOne(n);
    Fields(f, 0, sig);
    SplitUnique(sig, n, 0, sig);
    MagStep(f, sig);
    ScaleAdd(sig as real, 1.0, f.Emin() - n);
    ShlMono(1, f.ExpMax(), n);
  }

  /** Sets the sign bit of a magnitude. */
  lemma WithSign(f: Format, sign: nat, m: nat)
    requires sign <= 1 && m <= f.Inf()
    ensures var v := if sign != 0 then Or(m, f.SignBit()) else m;
      f.Pattern(v) && f.Sign(v) == sign && f.Abs(v) == m
  {
    var w := f.Width() - 1;
    hide Pow2, Shl, Shr, Low, Or, Format.Inf;
    InfBelowSign(f);
    ShlOne(w);
    OrDisjoint(1, w, m);
    SplitUnique(Shl(sign, w) + m, w, sign, m);
  }

  lemma InfBelowSign(f: Format)
    ensures f.Inf() + f.Lead() == f.SignBit()
  {
    SmallPowers();
    hide Pow2, Shl;
    TopField(8, 23);
    TopField(11, 52);
  }

  lemma SmallPowers()
    ensures Pow2(8) == 256 && Pow2(11) == 2048
  {}

  lemma TopField(k: nat, n: nat)
    ensures Shl(Pow2(k) - 1, n) + Pow2(n) == Pow2(k + n)
  {
    ShlAdd(Pow2(k) - 1, 1, n);
    ShlOne(n);
    Pow2Add(k, n);
  }

  function FpInf(sign: nat, f: Format): nat
  {
    var v := Shl(f.ExpMax(), f.P() - 1);
    if sign != 0 then Or(v, f.SignBit()) else v
  }

  lemma Pow2Values(f: Format)
    ensures Pow2(f.P() + 1) == 4 * f.Lead() && Pow2(f.P() + 2) == 8 * f.Lead() && Pow2(f.P() + 3) == 16 * f.Lead()
    ensures Pow2(f.P()) == 2 * f.Lead() && f.Lead() % 2 == 0 && 0x40_0000 < f.Lead() <= 0x10_0000_0000_0000
  {
    EvenShl(0, f.P() - 1);
    WordSizes();
    Pow2Mono(f.P() - 1, 52);
    Pow2Mono(23, f.P() - 1);
    assert Pow2(57) == 32 * Pow2(52);
    assert Pow2(23) == 0x80_0000 by { assert Pow2(8) == 256; assert Pow2(16) == 65536; }
  }

  /** What both loops of `Pack` keep: the value, and enough of its sticky digits. */
  ghost predicate Packing(f: Format, ext: nat, t: real) {
    && ext > 0
    && (|| t == ext as real
        || (Jammed(ext, t) && ext >= Pow2(f.P() + 1))
        || (Guarded(ext, t) && ext >= Pow2(f.P() + 2)))
  }

  lemma PackingGuarded(f: Format, ext: nat, t: real)
    requires Packing(f, ext, t)
    ensures Guarded(ext, t) && ext > 0
  {
    hide Pow2, Slack;
    SlackParity(ext);
  }

  lemma SlackParity(ext: nat)
    ensures ext % 2 == 1 ==> Slack(ext) == 1
  {
    if Slack(ext) != 1 { assert ext % 4 == 0 || ext % 4 == 2; }
  }

  /** One step of the first loop. */
  lemma ShiftDown(f: Format, ext: nat, exp: int, t: real)
    requires Packing(f, ext, t) && Pow2(f.P() + 3) <= ext < Pow2(63)
    ensures Packing(f, ShrJam(ext, 1), t / 2.0) && ShrJam(ext, 1) < ext
    ensures Scale(t / 2.0, exp + 1) == Scale(t, exp)
  {
    Pow2Values(f);
    PackingGuarded(f, ext, t);
    ShrJamTracks(ext, 1, t);
    HalfReal(t);
    ScaleStep(t / 2.0, exp);
    ShrJamValue(ext, 1);
    assert Shr(ext, 1) == Shr(ext / 2, 0);
  }

  /** One step of the second loop. */
  lemma ShiftUp(f: Format, ext: nat, exp: int, t: real)
    requires Packing(f, ext, t) && ext < Pow2(f.P() + 2)
    ensures Packing(f, 2 * ext, 2.0 * t)
    ensures Scale(2.0 * t, exp - 1) == Scale(t, exp)
  {
    ScaleStep(t, exp - 1);
    PowerTwice(f.P() + 1);
    hide Scale, Pow2;
    DoubleGuarded(ext, t);
  }

  lemma DoubleGuarded(ext: nat, t: real)
    ensures t == ext as real ==> 2.0 * t == (2 * ext) as real
    ensures Jammed(ext, t) ==> Guarded(2 * ext, 2.0 * t)
  {
    DoubleSlack(ext);
    hide Slack;
    assert (2 * ext) as real == 2.0 * (ext as real);
  }

  lemma DoubleSlack(ext: nat)
    ensures Slack(2 * ext) == 2 * (ext % 2)
  {
    if ext % 2 == 0 { assert 2 * ext == 4 * (ext / 2); } else { assert 2 * ext == 4 * (ext / 2) + 2; }
  }

  /** Packs a significand with three guard, round and sticky bits. t is the exact value ext stands
      for; the result is that value, scaled, correctly rounded. */
  method Pack(sign: nat, exp0: int, ext0: nat, f: Format, ghost t0: real) returns (r: nat)
    requires sign <= 1 && -5000 <= exp0 <= 5000 && ext0 < Pow2(62)
    requires ext0 > 0 ==> Packing(f, ext0, t0)
    ensures f.Pattern(r) && f.Sign(r) == sign
    ensures ext0 == 0 ==> f.IsZero(r)
    ensures ext0 > 0 ==> NearestEven(f, f.Abs(r), Scale(t0, exp0 - (f.P() + 2)))
  {
    WordSizes();
    hide Or, Shl, Shr, Low, Pow2, Scale, NearestEven, ShrJam, Packing;
    hide Format.Pattern, Format.Sign, Format.Abs;
    var ext: I64, exp: I64 := ext0, exp0;
    if ext == 0 {
      WithSign(f, sign, 0);
      OrZero(f.SignBit());
      if sign != 0 { return f.SignBit(); }
      return 0;
    }
    ghost var t, x := t0, Scale(t0, exp0 - (f.P() + 2));
    Pow2Values(f);
    while ext >= Pow2(f.P() + 3)
      invariant 0 < ext <= ext0 && exp0 <= exp <= exp0 + (ext0 - ext)
      invariant Packing(f, ext, t) && x == Scale(t, exp - (f.P() + 2))
      decreases ext
    {
      ShiftDown(f, ext, exp - (f.P() + 2), t);
      t := t / 2.0;
      ext := ShrJam(ext, 1);
      exp := exp + 1;
    }
    ghost var exp1 := exp;
    while ext < Pow2(f.P() + 2)
      invariant 0 < ext < Pow2(f.P() + 3) && exp1 - ext <= exp <= exp1
      invariant Packing(f, ext, t) && x == Scale(t, exp - (f.P() + 2))
      decreases Pow2(f.P() + 2) - ext
    {
      ShiftUp(f, ext, exp - (f.P() + 2), t);
      Doubling(ext);
      t := 2.0 * t;
      ext := Shl(ext, 1);
      exp := exp - 1;
    }
    PackingGuarded(f, ext, t);
    r := RoundAndEncode(sign, exp, ext, f, t);
  }

  lemma Denormalize(f: Format, ext: nat, exp: int, d: int, t: real)
    requires d >= 1 && Pow2(f.P() + 2) <= ext < Pow2(f.P() + 3) && Guarded(ext, t)
    ensures Guarded(ShrJam(ext, d), Scale(t, -d)) && ShrJam(ext, d) < Pow2(f.P() + 2)
    ensures Scale(Scale(t, -d), exp + d) == Scale(t, exp)
  {
    hide *;
    Pow2Values(f);
    WordSizes();
    ShrJamTracks(ext, d, t);
    JammedGuarded(ShrJam(ext, d), Scale(t, -d));
    ScaleScale(t, -d, exp + d);
    ShrJamValue(ext, d);
    JamHalf(ext, d, 4 * f.Lead());
  }

  lemma JammedGuarded(ext: nat, t: real)
    requires Jammed(ext, t)
    ensures Guarded(ext, t)
  {
    hide Slack;
    SlackParity(ext);
  }

  lemma JamHalf(v: nat, d: nat, k: nat)
    requires d >= 1 && v < 4 * k
    ensures Jam(v, d) < 2 * k
  {
    assert Shr(v, d) == Shr(v / 2, d - 1);
    hide Shr, Low;
    if Shr(v, d) == 2 * k - 1 { assert (2 * k - 1) % 2 == 1; }
  }

  lemma LowThree(x: nat)
    ensures Shr(x, 3) == x / 8 && And(x, 7) == x % 8 && (And(x, 1) != 0 <==> x % 2 == 1)
  {
    assert Pow2(3) == 8 && Pow2(1) == 2;
    AndMask(x, 3);
    AndMask(x, 1);
    assert Low(x, 3) == 2 * Low(x / 2, 2) + x % 2;
    assert Low(x / 2, 2) == 2 * Low(x / 4, 1) + x / 2 % 2;
    assert Low(x / 4, 1) == x / 4 % 2;
    assert Low(x, 1) == x % 2;
    assert Shr(x, 3) == Shr(x / 2, 2);
    assert Shr(x / 2, 2) == Shr(x / 4, 1);
    assert Shr(x / 4, 1) == Shr(x / 8, 0);
  }

  /** The fields of a normal number, put together. */
  lemma EncodeNormal(f: Format, raw: nat, sig: nat)
    requires f.Lead() <= sig < 2 * f.Lead()
    ensures Or(And(sig, f.Lead() - 1), Shl(raw, f.P() - 1)) == Shl(raw, f.P() - 1) + (sig - f.Lead())
  {
    var n := f.P() - 1;
    hide Or, And, Shl, Shr, Low, Pow2;
    ShlOne(n);
    SplitUnique(sig, n, 1, sig - f.Lead());
    AndMask(sig, n);
    OrDisjoint(raw, n, sig - f.Lead());
  }

  /** Rounding a normal significand, with a carry into the exponent if the significand overflows. */
  lemma RoundNormal(f: Format, exp: int, sig: nat, tail: nat, t: real) returns (m: nat)
    requires f.Emin() <= exp && exp + f.Bias() < f.ExpMax()
    requires f.Lead() <= sig < 2 * f.Lead() && tail < 8 && Guarded(8 * sig + tail, t)
    ensures var up := tail > 4 || (tail == 4 && sig % 2 == 1);
      && m == Shl(exp + f.Bias(), f.P() - 1) + (sig - f.Lead()) + (if up then 1 else 0)
      && (up && sig + 1 == 2 * f.Lead() ==> m == Shl(exp + 1 + f.Bias(), f.P() - 1))
    ensures NearestEven(f, m, Scale(t, exp - (f.P() + 2)))
  {
    hide Shl, Shr, Low, Pow2, Scale, Format.Mag, Format.Inf, Guarded, NearestEven;
    var n := NormalPattern(f, exp, sig);
    RoundSignificand(f, n, sig, tail, exp - (f.P() - 1), t);
    m := if tail > 4 || (tail == 4 && sig % 2 == 1) then n + 1 else n;
    ShlAdd(exp + f.Bias(), 1, f.P() - 1);
    ShlOne(f.P() - 1);
  }

  /** A value whose exponent is already too large rounds to infinity. */
  lemma RoundOverflow(f: Format, exp: int, sig: nat, tail: nat, t: real)
    requires f.Emin() <= exp && exp + f.Bias() >= f.ExpMax()
    requires f.Lead() <= sig < 2 * f.Lead() && tail < 8 && Guarded(8 * sig + tail, t)
    ensures NearestEven(f, f.Inf(), Scale(t, exp - (f.P() + 2)))
  {
    hide Shl, Shr, Low, Pow2, Scale, Format.Mag, Format.Inf, Guarded, NearestEven;
    var m := NormalPattern(f, exp, sig);
    MagMono(f, f.Inf(), m);
    TailSide(sig, tail, t);
    ScaleEighth(t, exp - (f.P() - 1));
    CellOrder(sig as real, t / 8.0, exp - (f.P() - 1));
    NearestOverflow(f, Scale(t, exp - (f.P() + 2)));
  }

  /** Rounding a subnormal significand; the result may be the smallest normal number. */
  lemma RoundSubnormal(f: Format, sig: nat, tail: nat, t: real)
    requires sig < f.Lead() && tail < 8 && Guarded(8 * sig + tail, t)
    ensures var up := tail > 4 || (tail == 4 && sig % 2 == 1);
      NearestEven(f, if up then sig + 1 else sig, Scale(t, f.Emin() - (f.P() + 2)))
    ensures f.Lead() < f.Inf()
  {
    hide Shl, Shr, Low, Pow2, Scale, Format.Mag, Format.Inf, Guarded, NearestEven;
    SubnormalPattern(f, sig);
    RoundSignificand(f, sig, sig, tail, f.Emin() - (f.P() - 1), t);
  }

  lemma OrZero(x: nat)
    ensures Or(0, x) == x
  {}

  lemma Doubling(x: nat)
    ensures Shl(x, 1) == 2 * x
  {
    assert Shl(x, 1) == 2 * Shl(x, 0);
  }

  /** The second half of packing: denormalizes below the smallest exponent, rounds, encodes. */
  method RoundAndEncode(sign: nat, exp0: I64, ext0: I64, f: Format, ghost t0: real) returns (out: nat)
    requires sign <= 1 && -0x5000_0000_0000_0000 <= exp0 <= 0x5000_0000_0000_0000
    requires Pow2(f.P() + 2) <= ext0 < Pow2(f.P() + 3) && Guarded(ext0, t0)
    ensures f.Pattern(out) && f.Sign(out) == sign
    ensures NearestEven(f, f.Abs(out), Scale(t0, exp0 - (f.P() + 2)))
  {
    hide Or, And, Shl, Shr, Low, Pow2, Scale, Guarded, NearestEven, ShrJam;
    hide Format.Pattern, Format.Sign, Format.Abs, Format.Mag;
    var ext: I64, exp: I64, sub := ext0, exp0, false;
    var min := f.Emin();
    ghost var t, x := t0, Scale(t0, exp0 - (f.P() + 2));
    Pow2Values(f);
    if exp < min {
      Denormalize(f, ext, exp - (f.P() + 2), min - exp, t);
      t := Scale(t, -(min - exp));
      ext := ShrJam(ext, min - exp);
      exp := min;
      sub := true;
    }
    LowThree(ext);
    var sig: I64 := Shr(ext, 3);
    var tail: I64 := And(ext, 7);
    LowThree(sig);
    ghost var m := f.Inf();
    if sub { RoundSubnormal(f, sig, tail, t); }
    else if exp + f.Bias() >= f.ExpMax() { RoundOverflow(f, exp, sig, tail, t); }
    else { m := RoundNormal(f, exp, sig, tail, t); }
    if tail > 4 || (tail == 4 && And(sig, 1) != 0) { sig := sig + 1; }
    if sub { m := sig; }
    if sig >= Pow2(f.P()) {
      LowThree(sig);
      ShrOne(sig);
      sig := Shr(sig, 1);
      exp := exp + 1;
    }
    var raw: I64 := exp + f.Bias();
    if sub { raw := 0; }
    NearestBound(f, m, x);
    WithSign(f, sign, m);
    if raw >= f.ExpMax() { return FpInf(sign, f); }
    out := And(sig, Pow2(f.P() - 1) - 1);
    if sub {
      SubnormalFraction(f, sig);
      if sig >= Pow2(f.P() - 1) { out := Pow2(f.P() - 1); }
    } else {
      EncodeNormal(f, raw, sig);
      out := Or(out, Shl(raw, f.P() - 1));
    }
    if sign != 0 { out := Or(out, f.SignBit()); }
  }

  lemma NearestBound(f: Format, m: nat, x: real)
    requires NearestEven(f, m, x)
    ensures m <= f.Inf()
  {}

  lemma SubnormalFraction(f: Format, sig: nat)
    ensures sig < f.Lead() ==> And(sig, f.Lead() - 1) == sig
  {
    AndMask(sig, f.P() - 1);
    if sig < f.Lead() { ShrSmall(sig, f.P() - 1); }
  }

  lemma ShrOne(x: nat)
    ensures Shr(x, 1) == x / 2
  {
    assert Shr(x, 1) == Shr(x / 2, 0);
  }

  // ----- fields and special values -----

  function FpSign(v: nat, f: Format): nat { And(Shr(v, f.Width() - 1), 1) }
  function FpExp(v: nat, f: Format): nat { And(Shr(v, f.P() - 1), f.ExpMax()) }
  function FpFrac(v: nat, f: Format): nat { And(v, f.Lead() - 1) }
  function FpNan(f: Format): nat { Or(Shl(f.ExpMax(), f.P() - 1), Pow2(f.P() - 2)) }
  predicate FpIsNan(v: nat, f: Format) { FpExp(v, f) == f.ExpMax() && FpFrac(v, f) != 0 }
  predicate FpIsInf(v: nat, f: Format) { FpExp(v, f) == f.ExpMax() && FpFrac(v, f) == 0 }
  /** `(v & ~signbit) == 0` */
  predicate FpIsZero(v: nat, f: Format) { And(v, f.SignBit() - 1) == 0 }

  /** The two formats by their bits: sign, infinity, the NaN that is returned, and one; the pattern 1 stands
      for the least positive number. */
  lemma Singles()
    ensures F32.SignBit() == 0x8000_0000 && F32.Inf() == 0x7F80_0000 && FpNan(F32) == 0x7FC0_0000
    ensures F32.Mag(0x3F80_0000) == 1.0 && F32.Mag(1) == Scale(1.0, -149)
  {
    hide Pow2, Shl, Or, Scale, Format.Mag;
    Powers32();
    ShlTimes(255, 23);
    ShlTimes(127, 23);
    NanValue(F32);
    OneMag(F32, 127);
    LeastMag(F32);
  }

  lemma Doubles()
    ensures F64.SignBit() == 0x8000_0000_0000_0000 && F64.Inf() == 0x7FF0_0000_0000_0000
        && FpNan(F64) == 0x7FF8_0000_0000_0000
    ensures F64.Mag(0x3FF0_0000_0000_0000) == 1.0 && F64.Mag(1) == Scale(1.0, -1074)
  {
    hide Pow2, Shl, Or, Scale, Format.Mag;
    Powers64();
    ShlTimes(2047, 52);
    ShlTimes(1023, 52);
    NanValue(F64);
    OneMag(F64, 1023);
    LeastMag(F64);
  }

  lemma Powers32()
    ensures Pow2(31) == 0x8000_0000 && Pow2(23) == 0x80_0000 && Pow2(22) == 0x40_0000
  {
    assert Pow2(8) == 0x100;
    assert Pow2(15) == 0x8000;
    assert Pow2(22) == 0x40_0000;
    assert Pow2(29) == 0x2000_0000;
  }

  lemma Powers64()
    ensures Pow2(63) == 0x8000_0000_0000_0000 && Pow2(52) == 0x10_0000_0000_0000 && Pow2(51) == 0x8_0000_0000_0000
  {
    hide Pow2;
    WordSizes();
    Pow2Add(51, 6);
    Pow2Add(52, 5);
    SmallPowers2();
  }

  lemma SmallPowers2()
    ensures Pow2(5) == 32 && Pow2(6) == 64
  {}

  lemma OneMag(f: Format, raw: nat)
    requires raw == f.Bias()
    ensures f.Mag(Shl(raw, f.P() - 1)) == 1.0
  {
    hide Format.Mag, Shl, Scale, Pow2;
    var n := f.P() - 1;
    Fields(f, raw, 0);
    ShlOne(n);
    ScaleShl(1, n);
    ScaleScale(1.0, n, -n);
    ScaleNone(1.0);
    assert (f.Lead() + 0) as real == Scale(1.0, n);
  }

  lemma ScaleNone(x: real)
    ensures Scale(x, 0) == x
  {}

  lemma LeastMag(f: Format)
    ensures f.Mag(1) == Scale(1.0, f.Emin() - (f.P() - 1))
  {
    hide Format.Mag, Scale;
    Pow2Mono(1, f.P() - 1);
    Fields(f, 0, 1);
    ShlNone(f.P() - 1);
  }

  lemma {:induction false} ShlNone(n: nat)
    ensures Shl(0, n) == 0
  {
    if n > 0 { ShlNone(n - 1); }
  }

  /** The exponent mask is all ones. */
  lemma ExponentMask(f: Format)
    ensures f.ExpMax() + 1 == Pow2(f.Width() - f.P())
  {
    SmallPowers();
  }

  lemma {:induction false} LowShr(v: nat, a: nat, b: nat)
    ensures Low(Shr(v, a), b) == Shr(Low(v, a + b), a)
    ensures Low(v, a) == Low(Low(v, a + b), a)
  {
    if a > 0 {
      var h := v / 2;
      LowShr(h, a - 1, b);
      var x := Low(v, a + b);
      assert x == 2 * Low(h, a + b - 1) + v % 2;
      Halve(x, Low(h, a + b - 1), v % 2);
      assert Shr(v, a) == Shr(h, a - 1) && Shr(x, a) == Shr(x / 2, a - 1);
      assert Low(v, a) == 2 * Low(h, a - 1) + v % 2 && Low(x, a) == 2 * Low(x / 2, a - 1) + x % 2;
    } else {
      LowShrZero(v, b);
    }
  }

  lemma Halve(x: nat, q: nat, r: nat)
    requires x == 2 * q + r && r < 2
    ensures x / 2 == q && x % 2 == r
  {}

  lemma {:induction false} LowShrZero(v: nat, b: nat)
    ensures Shr(v, 0) == v && Low(v, 0) == 0
  {}

  /** The field accessors, in terms of the sign and the magnitude pattern. */
  lemma FpFields(v: nat, f: Format)
    requires f.Pattern(v)
    ensures FpSign(v, f) == f.Sign(v) <= 1
    ensures FpExp(v, f) == Shr(f.Abs(v), f.P() - 1) <= f.ExpMax()
    ensures FpFrac(v, f) == Low(f.Abs(v), f.P() - 1) < f.Lead()
    ensures FpIsZero(v, f) <==> f.IsZero(v)
    ensures FpIsNan(v, f) <==> f.IsNan(v)
    ensures FpIsInf(v, f) <==> f.IsInf(v)
  {
    hide *;
    SignField(v, f);
    ExponentField(v, f);
    FractionField(v, f);
    Classes(v, f);
  }

  lemma SignField(v: nat, f: Format)
    requires f.Pattern(v)
    ensures FpSign(v, f) == f.Sign(v) <= 1
  {
    SignRange(v, f.Width() - 1);
  }

  lemma FractionField(v: nat, f: Format)
    ensures FpFrac(v, f) == Low(f.Abs(v), f.P() - 1) < f.Lead()
    ensures FpIsZero(v, f) <==> f.IsZero(v)
  {
    hide Or, And, Shl, Shr, Low, Pow2;
    AndMask(v, f.Width() - 1);
    AndMask(v, f.P() - 1);
    LowShr(v, f.P() - 1, f.Width() - f.P());
  }

  lemma Classes(v: nat, f: Format)
    ensures FpIsNan(v, f) <==> f.IsNan(v)
    ensures FpIsInf(v, f) <==> f.IsInf(v)
  {
    ExponentField(v, f);
    FractionField(v, f);
    hide Or, And, Shl, Shr, Low, Pow2, FpExp, FpFrac, Format.Abs;
    Split(f.Abs(v), f.P() - 1);
    var e := FpExp(v, f);
    if e < f.ExpMax() { ShlMono(e, f.ExpMax(), f.P() - 1); }
  }

  lemma ExponentField(v: nat, f: Format)
    ensures FpExp(v, f) == Shr(f.Abs(v), f.P() - 1) <= f.ExpMax()
  {
    hide Or, And, Shl, Shr, Low, Pow2;
    ExponentMask(f);
    AndMask(Shr(v, f.P() - 1), f.Width() - f.P());
    LowShr(v, f.P() - 1, f.Width() - f.P());
  }

  lemma SignRange(v: nat, w: nat)
    requires v < 2 * Pow2(w)
    ensures Shr(v, w) <= 1 && And(Shr(v, w), 1) == Shr(v, w)
  {
    Split(v, w);
    var q := Shr(v, w);
    if q >= 2 { ShlMono(2, q, w); ShlAdd(1, 1, w); ShlOne(w); }
  }

  // ----- unpacking -----

  lemma FractionValue(v: nat, f: Format)
    requires f.Pattern(v)
    ensures FpExp(v, f) == 0 ==> f.Mag(f.Abs(v)) == Scale(FpFrac(v, f) as real, f.Emin() - (f.P() - 1))
    ensures FpExp(v, f) > 0 ==>
      f.Mag(f.Abs(v)) == Scale((f.Lead() + FpFrac(v, f)) as real, FpExp(v, f) - f.Bias() - (f.P() - 1))
    ensures Or(FpFrac(v, f), Pow2(f.P() - 1)) == f.Lead() + FpFrac(v, f)
    ensures f.Abs(v) == Shl(FpExp(v, f), f.P() - 1) + FpFrac(v, f)
    ensures f.Finite(v) ==> FpExp(v, f) < f.ExpMax()
    ensures f.IsZero(v) <==> FpExp(v, f) == 0 && FpFrac(v, f) == 0
  {
    hide Or, And, Shl, Shr, Low, Pow2, Scale, FpExp, FpFrac;
    FpFields(v, f);
    Split(f.Abs(v), f.P() - 1);
    Fields(f, FpExp(v, f), FpFrac(v, f));
    ZeroParts(FpExp(v, f), f.P() - 1, FpFrac(v, f));
    ZeroShl(f.P() - 1);
    ShlOne(f.P() - 1);
    OrDisjoint(1, f.P() - 1, FpFrac(v, f));
  }

  lemma NormalizeStep(sig: nat, e: int)
    ensures Shl(sig, 1) == 2 * sig && Scale(sig as real, e) == Scale((2 * sig) as real, e - 1)
  {
    Doubling(sig);
    ScaleStep(sig as real, e - 1);
    assert (2 * sig) as real == 2.0 * (sig as real);
  }

  /** The loop of `Unpack`: brings the leading digit of a subnormal to place P - 1. */
  method Normalize(f: Format, sig0: I64) returns (sig: I64, exp: I64)
    requires 0 < sig0 < f.Lead()
    ensures f.Lead() <= sig < 2 * f.Lead() && f.Emin() - f.P() <= exp <= 1023
    ensures Scale(sig as real, exp - (f.P() - 1)) == Scale(sig0 as real, f.Emin() - (f.P() - 1))
  {
    hide Shl, Scale;
    var p := f.P();
    Pow2Values(f);
    sig, exp := sig0, f.Emin();
    while sig < Pow2(p - 1)
      invariant exp <= f.Emin() && Pow2(f.Emin() - exp) <= sig < 2 * f.Lead()
      invariant Scale(sig as real, exp - (p - 1)) == Scale(sig0 as real, f.Emin() - (p - 1))
      decreases Pow2(p - 1) - sig
    {
      NormalizeStep(sig, exp - (p - 1));
      Pow2Below(f.Emin() - exp, p - 1);
      sig := Shl(sig, 1);
      exp := exp - 1;
    }
    Pow2Below(f.Emin() - exp, p);
  }

  /** Normalizes: the leading digit of sig is at place P - 1, also for a subnormal v. */
  method Unpack(v: nat, f: Format) returns (sig: I64, exp: I64)
    requires f.Pattern(v) && f.Finite(v)
    ensures f.IsZero(v) ==> sig == 0
    ensures !f.IsZero(v) ==>
              && f.Lead() <= sig < 2 * f.Lead() && f.Emin() - f.P() <= exp <= 1023
              && f.Mag(f.Abs(v)) == Scale(sig as real, exp - (f.P() - 1))
  {
    hide Or, And, Shl, Shr, Low, Scale, FpExp, FpFrac, Format.Abs, Format.Mag;
    FractionValue(v, f);
    Pow2Values(f);
    var p := f.P();
    var raw: I64 := FpExp(v, f);
    FpFields(v, f);
    sig := FpFrac(v, f);
    if raw == 0 {
      exp := f.Emin();
      if sig == 0 { return; }
      sig, exp := Normalize(f, sig);
      return;
    }
    exp := raw - f.Bias();
    sig := Or(sig, Pow2(p - 1));
  }

  lemma ZeroShl(n: nat)
    ensures Shl(0, n) == 0
  {
    ShlOne(n);
  }

  lemma ZeroParts(raw: nat, n: nat, frac: nat)
    ensures raw > 0 ==> Shl(raw, n) + frac != 0
  {}

  lemma Pow2Below(a: nat, b: nat)
    requires Pow2(a) < Pow2(b)
    ensures a < b
  {
    if b <= a { Pow2Mono(b, a); }
  }

  /** An exact significand that is still long enough after a sticky right shift is fit for packing. */
  lemma JamPacks(f: Format, v: nat, d: int)
    requires d >= 1 && Pow2(f.P() + 1 + d) <= v
    ensures Packing(f, Jam(v, d), Scale(v as real, -d)) && Jam(v, d) <= v
    ensures v < Pow2(63) ==> ShrJam(v, d) == Jam(v, d)
  {
    hide *;
    JamTracks(v, d, v as real) by { ExactGuarded(v); }
    JamBounds(v, d);
    ShrPow2(f.P() + 1, d);
    ShrMono(Pow2(f.P() + 1 + d), v, d);
    PackingJammed(f, Jam(v, d), Scale(v as real, -d));
    if v < Pow2(63) { ShrJamValue(v, d); }
  }

  lemma JamBounds(v: nat, d: nat)
    requires d >= 1
    ensures Shr(v, d) <= Jam(v, d) && (v > 0 ==> Jam(v, d) <= v)
  {
    assert Shr(v, d) == Shr(v / 2, d - 1);
  }

  lemma ShrPow2(a: nat, b: nat)
    ensures Shr(Pow2(a + b), b) == Pow2(a)
  {
    Pow2Add(a, b);
    SplitUnique(Pow2(a + b), b, Pow2(a), 0);
  }

  lemma PackingJammed(f: Format, ext: nat, t: real)
    requires Jammed(ext, t) && ext >= Pow2(f.P() + 1)
    ensures Packing(f, ext, t)
  {}

  lemma NanIsNan(f: Format)
    ensures f.Pattern(FpNan(f)) && f.IsNan(FpNan(f))
  {
    NanValue(f);
    InfBelowSign(f);
    hide *;
    ShrSmallFormat(f, f.Inf() + Pow2(f.P() - 2));
    NanAbs(f, FpNan(f));
  }

  lemma NanValue(f: Format)
    ensures FpNan(f) == f.Inf() + Pow2(f.P() - 2) && f.Lead() == 2 * Pow2(f.P() - 2)
  {
    hide Or, Shl, Pow2;
    QuietBit(f.ExpMax(), f.P() - 1);
  }

  lemma QuietBit(e: nat, n: nat)
    requires n >= 1
    ensures Or(Shl(e, n), Pow2(n - 1)) == Shl(e, n) + Pow2(n - 1) && Pow2(n) == 2 * Pow2(n - 1)
  {
    OrDisjoint(e, n, Pow2(n - 1));
  }

  lemma NanAbs(f: Format, v: nat)
    requires f.Abs(v) > f.Inf()
    ensures f.IsNan(v)
  {}

  lemma InfWithSign(f: Format, sign: nat)
    requires sign <= 1
    ensures var v := FpInf(sign, f); f.Pattern(v) && f.Sign(v) == sign && f.IsInf(v)
  {
    hide Or, Shl, Shr, Low, Pow2;
    WithSign(f, sign, f.Inf());
  }

  lemma ShrSmallFormat(f: Format, m: nat)
    requires m < f.SignBit()
    ensures f.Abs(m) == m && f.Sign(m) == 0 && f.Pattern(m)
  {
    ShrSmall(m, f.Width() - 1);
  }

  /** The significand of a value, moved to three places below the last one of another format. */
  lemma Realign(sig: nat, e: int, p: nat, q: nat)
    ensures Scale(sig as real, e - (p - 1)) == Scale(Scale((8 * sig) as real, q - p), e - (q + 2))
  {
    var s := sig as real;
    ScaleScale((8 * sig) as real, q - p, e - (q + 2));
    assert (8 * sig) as real / 8.0 == s;
    ScaleEighth(8.0 * s, e - (p - 1));
  }

  /** The powers of two around the two precisions. */
  lemma CastPowers()
    ensures 8 * Pow2(52) == Pow2(55) == 2 * Pow2(54) && 16 * Pow2(52) == Pow2(56) && Pow2(56) == 0x100_0000_0000_0000
    ensures Pow2(62) == 0x4000_0000_0000_0000 && Pow2(63) == 0x8000_0000_0000_0000
    ensures Shl(Pow2(27), 29) == Pow2(56) && 16 * Pow2(23) == Pow2(27) && 8 * Pow2(23) == Pow2(26)
  {
    Pow2Add(27, 29);
    WordSizes();
    assert Pow2(57) == 2 * Pow2(56);
  }

  /** Converts between the two formats. */
  method FpCast(v: nat, from: Format, to: Format) returns (r: nat)
    requires from.Pattern(v)
    ensures to.Pattern(r)
    ensures from == to ==> r == v
    ensures from != to && from.IsNan(v) ==> r == FpNan(to)
    ensures from != to && !from.IsNan(v) ==> to.Sign(r) == from.Sign(v)
    ensures from != to && from.IsInf(v) ==> to.IsInf(r)
    ensures from != to && from.Finite(v) ==> NearestEven(to, to.Abs(r), from.Mag(from.Abs(v)))
  {
    hide Or, And, Shl, Shr, Low, Pow2, Scale, ShrJam, FpIsNan, FpIsInf, FpIsZero, FpSign, NearestEven, Packing, FpNan;
    hide Format.Pattern, Format.Sign, Format.Abs, Format.Mag, Format.Inf;
    FpFields(v, from);
    var p: int, q: int := from.P(), to.P();
    if p == q { return v; }
    NanIsNan(to);
    if FpIsNan(v, from) { return FpNan(to); }
    if FpIsInf(v, from) {
      InfWithSign(to, from.Sign(v));
      return FpInf(FpSign(v, from), to);
    }
    if FpIsZero(v, from) {
      MagZero(from, 0);
      MagZero(to, 0);
      NearestExact(to, 0, 0.0);
      WithSign(to, from.Sign(v), 0);
      OrZero(to.SignBit());
      if FpSign(v, from) != 0 { return to.SignBit(); }
      return 0;
    }
    var sig, e := Unpack(v, from);
    CastPowers();
    EighthShift(sig);
    Realign(sig, e, p, q);
    var ext: I64 := Shl(sig, 3);
    ghost var t := Scale((8 * sig) as real, q - p);
    if p > q {
      JamPacks(to, ext, p - q);
      ext := ShrJam(ext, p - q);
    } else {
      ShlMono(ext, Pow2(27), 29);
      ScaleShl(ext, q - p);
      ext := Shl(ext, q - p);
      PackingExact(to, ext);
    }
    PackingGuarded(to, ext, t);
    r := Pack(FpSign(v, from), e, ext, to, t);
  }

  lemma EighthShift(sig: nat)
    ensures Shl(sig, 3) == 8 * sig
  {
    assert Shl(sig, 3) == 2 * Shl(sig, 2);
    assert Shl(sig, 2) == 2 * Shl(sig, 1);
    Doubling(sig);
  }

  lemma PackingExact(f: Format, ext: nat)
    ensures ext > 0 ==> Packing(f, ext, ext as real)
  {}

  // ----- addition -----

  function Signed(sign: nat, m: real): real { if sign == 0 then m else -m }

  /** r is x correctly rounded: nearest magnitude, and the sign of x. */
  ghost predicate RoundsTo(f: Format, r: nat, x: real) {
    && f.Pattern(r)
    && NearestEven(f, f.Abs(r), if x < 0.0 then -x else x)
    && (x > 0.0 ==> f.Sign(r) == 0) && (x < 0.0 ==> f.Sign(r) == 1)
  }

  lemma OddPlusEight(k: nat, j: nat)
    requires k % 8 == 0
    ensures (k + j) % 2 == j % 2 && (k >= j ==> (k - j) % 2 == j % 2)
  {}

  /** Exact alignment. */
  lemma ExactSum(f: Format, xa: nat, j: nat)
    requires xa > 0
    ensures Packing(f, xa + j, xa as real + j as real)
    ensures j < xa ==> Packing(f, xa - j, xa as real - j as real)
  {
    assert (xa + j) as real == xa as real + j as real;
    if j < xa { assert (xa - j) as real == xa as real - j as real; }
  }

  lemma JammedPlus(k: nat, j: nat, tb: real)
    requires k % 8 == 0 && Jammed(j, tb)
    ensures Jammed(k + j, k as real + tb)
  {
    OddPlusEight(k, j);
    assert (k + j) as real == k as real + j as real;
  }

  lemma JammedMinus(k: nat, j: nat, tb: real)
    requires k % 8 == 0 && j <= k && Jammed(j, tb)
    ensures Jammed(k - j, k as real - tb)
  {
    OddPlusEight(k, j);
    assert (k - j) as real == k as real - j as real;
  }

  /** Alignment by two or more digits. */
  lemma FarSum(f: Format, xa: nat, j: nat, tb: real)
    requires xa % 8 == 0 && 8 * f.Lead() <= xa && j <= 4 * f.Lead() && Jammed(j, tb)
    ensures Packing(f, xa + j, xa as real + tb)
    ensures Packing(f, xa - j, xa as real - tb)
  {
    hide Jammed, Pow2;
    Pow2Values(f);
    JammedPlus(xa, j, tb);
    JammedMinus(xa, j, tb);
  }

  ghost predicate Aligned(f: Format, xa: nat, j: nat, tb: real) {
    && Packing(f, xa + j, xa as real + tb)
    && (j < xa ==> Packing(f, xa - j, xa as real - tb))
    && j < 16 * f.Lead()
  }

  /** Three extra bits are enough for a sum and for a difference: after at most one digit of
      cancellation the sticky digit is still below the rounding digit. */
  lemma AlignedSum(f: Format, xa: nat, xb: nat, d: int)
    requires d >= 0 && xa % 8 == 0 && xb % 8 == 0
    requires 8 * f.Lead() <= xa < 16 * f.Lead() && 8 * f.Lead() <= xb < 16 * f.Lead()
    ensures Aligned(f, xa, ShrJam(xb, d), Scale(xb as real, -d))
    ensures d == 0 ==> ShrJam(xb, d) == xb && Scale(xb as real, -d) == xb as real
    ensures d > 0 ==> ShrJam(xb, d) < xa
  {
    WordBound(f);
    if d == 0 {
      assert ShrJam(xb, 0) == xb && Scale(xb as real, 0) == xb as real;
      hide *;
      ExactAligned(f, xa, xb);
    } else if d == 1 {
      hide *;
      HalfReal(xb as real);
      HalfEven(xb);
      ExactAligned(f, xa, ShrJam(xb, d));
    } else {
      hide *;
      ShrJamTracks(xb, d, xb as real) by { ExactGuarded(xb); }
      QuarterBound(xb, d);
      FarAligned(f, xa, ShrJam(xb, d), Scale(xb as real, -d));
    }
  }

  lemma ExactGuarded(x: nat)
    ensures Guarded(x, x as real)
  {}

  lemma WordBound(f: Format)
    ensures 16 * f.Lead() < Pow2(63) && f.Lead() > 1 && Pow2(62) < Pow2(63)
  {
    Pow2Values(f);
    WordSizes();
  }

  lemma ExactAligned(f: Format, xa: nat, j: nat)
    requires xa > 0 && j < 16 * f.Lead()
    ensures Aligned(f, xa, j, j as real)
  {
    ExactSum(f, xa, j);
  }

  lemma FarAligned(f: Format, xa: nat, j: nat, tb: real)
    requires xa % 8 == 0 && 8 * f.Lead() <= xa && j <= 4 * f.Lead() && Jammed(j, tb)
    ensures Aligned(f, xa, j, tb)
  {
    hide Jammed, Pow2, Packing;
    FarSum(f, xa, j, tb);
  }

  lemma HalfEven(xb: nat)
    requires xb % 8 == 0 && xb < Pow2(63)
    ensures ShrJam(xb, 1) == xb / 2 && (xb / 2) as real == xb as real / 2.0
  {
    ShrJamValue(xb, 1);
    ShrOne(xb);
    Split(xb, 1);
    Doubling(xb / 2);
  }

  lemma QuarterBound(xb: nat, d: int)
    requires d >= 2 && xb < Pow2(63)
    ensures ShrJam(xb, d) <= xb / 4 + 1
  {
    ShrJamValue(xb, d);
    assert Shr(xb, d) == Shr(xb / 2, d - 1);
    assert Shr(xb / 2, d - 1) == Shr(xb / 4, d - 2);
  }

  /** Two operands and a common sign: signed magnitudes add. */
  lemma SignedSum(sa: nat, sb: nat, ma: real, mb: real, xa: real, tb: real, e: int)
    requires sa <= 1 && sb <= 1 && ma == Scale(xa, e) && mb == Scale(tb, e)
    ensures var x := Signed(sa, ma) + Signed(sb, mb);
      && (sa == sb ==> x == Signed(sa, Scale(xa + tb, e)))
      && (sa != sb ==> x == Signed(sa, Scale(xa - tb, e)) && x == Signed(sb, Scale(tb - xa, e)))
  {
    hide Scale;
    ScaleAdd(xa, tb, e);
    ScaleAdd(tb, xa, e);
  }

  lemma RoundsFromMagnitude(f: Format, r: nat, sign: nat, m: real)
    requires sign <= 1 && m > 0.0 && f.Pattern(r) && f.Sign(r) == sign && NearestEven(f, f.Abs(r), m)
    ensures RoundsTo(f, r, Signed(sign, m))
  {}

  lemma PackedPositive(f: Format, ext: nat, t: real, e: int)
    requires Packing(f, ext, t)
    ensures Scale(t, e) > 0.0
  {
    Pow2Values(f);
    ScaleMono(0.0, t, e);
  }

  lemma ScaleZero(x: real)
    ensures Scale(x, 0) == x
  {}

  /** Brings a magnitude to the larger exponent. */
  lemma ToExponent(sig: nat, e: int, top: int, p: nat)
    requires e <= top
    ensures Shl(sig, 3) == 8 * sig
    ensures Scale(sig as real, e - (p - 1)) == Scale(Scale((8 * sig) as real, -(top - e)), top - (p + 2))
  {
    EighthShift(sig);
    Realign(sig, e, p, p);
    ScaleScale((8 * sig) as real, -(top - e), top - (p + 2));
    assert Scale((8 * sig) as real, 0) == (8 * sig) as real;
  }

  /** Packs a result whose exact value is sign * t * 2^(e - P - 2), and is zero only if ext is. */
  method PackSigned(sign: nat, e: int, ext: nat, f: Format, ghost t: real, ghost x: real) returns (r: nat)
    requires sign <= 1 && -5000 <= e <= 5000 && ext < Pow2(62)
    requires ext > 0 ==> Packing(f, ext, t) && x == Signed(sign, Scale(t, e - (f.P() + 2)))
    requires ext == 0 ==> x == 0.0
    ensures RoundsTo(f, r, x) && f.Sign(r) == sign
    ensures ext == 0 ==> f.IsZero(r)
    ensures ext > 0 ==> x != 0.0
  {
    hide Pow2, Scale, Packing, Format.Mag, Format.Pattern, Format.Sign, Format.Abs, NearestEven;
    r := Pack(sign, e, ext, f, t);
    if ext > 0 {
      PackedPositive(f, ext, t, e - (f.P() + 2));
      RoundsFromMagnitude(f, r, sign, Scale(t, e - (f.P() + 2)));
    } else {
      MagZero(f, 0);
      NearestExact(f, 0, 0.0);
    }
  }

  /** Addition of two nonzero finite values with signs sa and sb. */
  method AddFinite(a: nat, b: nat, sa0: nat, sb0: nat, f: Format) returns (r: nat)
    requires f.Pattern(a) && f.Pattern(b) && f.Finite(a) && f.Finite(b) && !f.IsZero(a) && !f.IsZero(b)
    requires sa0 <= 1 && sb0 <= 1
    ensures var x := Signed(sa0, f.Mag(f.Abs(a))) + Signed(sb0, f.Mag(f.Abs(b)));
      RoundsTo(f, r, x) && (x == 0.0 ==> f.Sign(r) == sa0 && f.IsZero(r))
  {
    hide Shl, Pow2, Scale, ShrJam, Packing, RoundsTo, Format.Mag, Format.Pattern, Format.Sign, Format.Abs;
    var p := f.P();
    var sa, sb := sa0, sb0;
    var xa: I64, ea := Unpack(a, f);
    var xb: I64, eb := Unpack(b, f);
    ghost var ma, mb := f.Mag(f.Abs(a)), f.Mag(f.Abs(b));
    ghost var x := Signed(sa, ma) + Signed(sb, mb);
    CastPowers();
    if ea < eb {
      ToExponent(xa, ea, eb, p);
      ToExponent(xb, eb, eb, p);
    } else {
      ToExponent(xa, ea, ea, p);
      ToExponent(xb, eb, ea, p);
    }
    xa := Shl(xa, 3);
    xb := Shl(xb, 3);
    if ea < eb {
      ea, eb := eb, ea;
      xa, xb := xb, xa;
      sa, sb := sb, sa;
      ma, mb := mb, ma;
    }
    ScaleZero(xa as real);
    r := AddAligned(sa, sb, xa, ea, xb, ea - eb, f, ma, mb);
  }

  /** The sum when the exponents are in order: the second significand is shifted into place. */
  method AddAligned(sa: nat, sb: nat, xa: I64, ea: int, xb0: I64, d: int, f: Format, ghost ma: real,
      ghost mb: real) returns (r: nat)
    requires sa <= 1 && sb <= 1 && -5000 <= ea <= 5000 && d >= 0 && xa % 8 == 0 && xb0 % 8 == 0
    requires 8 * f.Lead() <= xa < 16 * f.Lead() && 8 * f.Lead() <= xb0 < 16 * f.Lead()
    requires ma == Scale(xa as real, ea - (f.P() + 2)) && mb == Scale(Scale(xb0 as real, -d), ea - (f.P() + 2))
    ensures var x := Signed(sa, ma) + Signed(sb, mb);
      RoundsTo(f, r, x) && (x == 0.0 ==> d == 0 && f.Sign(r) == sa && f.IsZero(r))
  {
    hide Shl, Pow2, Scale, ShrJam, Packing, RoundsTo, Signed, Format.Mag, Format.Pattern, Format.Sign, Format.Abs;
    ghost var x, e := Signed(sa, ma) + Signed(sb, mb), ea - (f.P() + 2);
    CastPowers();
    SumBounds(f);
    AlignedSum(f, xa, xb0, d);
    ghost var tb := Scale(xb0 as real, -d);
    var xb: I64 := ShrJam(xb0, d);
    SignedSum(sa, sb, ma, mb, xa as real, tb, e);
    if sa == sb {
      r := PackSigned(sa, ea, xa + xb, f, xa as real + tb, x);
    } else if xa < xb {
      ExactSum(f, xb, xa);
      r := PackSigned(sb, ea, xb - xa, f, tb - xa as real, x);
    } else {
      if xa == xb { Cancelled(xa as real, tb, sa, e); }
      r := PackSigned(sa, ea, xa - xb, f, xa as real - tb, x);
    }
  }

  lemma Cancelled(xa: real, tb: real, sign: nat, e: int)
    ensures xa == tb ==> Signed(sign, Scale(xa - tb, e)) == 0.0
  {
    ScaleMono(0.0, 0.0, e);
  }

  lemma SumBounds(f: Format)
    ensures 32 * f.Lead() <= Pow2(62)
  {
    hide Pow2;
    CastPowers();
    Pow2Mono(f.P() - 1, 52);
  }

  lemma RoundsExact(f: Format, r: nat)
    requires f.Pattern(r) && f.Sign(r) <= 1 && f.Abs(r) <= f.Inf()
    ensures RoundsTo(f, r, Signed(f.Sign(r), f.Mag(f.Abs(r))))
  {
    hide Format.Mag, NearestEven, Format.Inf, Format.Sign, Format.Abs, Format.Pattern;
    MagZero(f, f.Abs(r));
    NearestExact(f, f.Abs(r), f.Mag(f.Abs(r)));
  }

  lemma ZeroMagnitude(f: Format, v: nat)
    ensures f.IsZero(v) ==> f.Mag(f.Abs(v)) == 0.0
  {
    hide Format.Mag, Format.Abs;
    MagZero(f, f.Abs(v));
  }

  /** The magnitude with another sign. */
  lemma Resign(f: Format, v: nat, sign: nat)
    requires f.Pattern(v) && !f.IsNan(v) && sign <= 1
    ensures var m := And(v, f.SignBit() - 1);
      var w := if sign != 0 then Or(m, f.SignBit()) else m;
      f.Pattern(w) && f.Sign(w) == sign && f.Abs(w) == f.Abs(v)
  {
    hide And, Or, Pow2, Shl, Shr, Format.Pattern, Format.Sign, Format.Inf;
    AndMask(v, f.Width() - 1);
    hide Format.Abs;
    WithSign(f, sign, f.Abs(v));
  }

  lemma SignBitPattern(f: Format)
    ensures f.Pattern(f.SignBit()) && f.Sign(f.SignBit()) == 1 && f.Abs(f.SignBit()) == 0
    ensures f.Pattern(0) && f.Sign(0) == 0 && f.Abs(0) == 0
  {
    WithSign(f, 1, 0);
    OrZero(f.SignBit());
    WithSign(f, 0, 0);
  }

  /** Addition and subtraction. Infinities that cancel are those of different signs in a sum and of the
      same sign in a difference; a difference with an infinite second operand has the other sign. */
  method FpAdd(a: nat, b0: nat, f: Format, sub: bool) returns (r: nat)
    requires f.Pattern(a) && f.Pattern(b0)
    ensures f.Pattern(r)
    ensures f.IsNan(a) || f.IsNan(b0) ==> r == FpNan(f)
    ensures f.IsInf(a) && f.IsInf(b0) && (f.Sign(a) == f.Sign(b0)) == sub ==> r == FpNan(f)
    ensures f.IsInf(a) && f.IsInf(b0) && (f.Sign(a) == f.Sign(b0)) != sub ==> f.IsInf(r) && f.Sign(r) == f.Sign(a)
    ensures f.IsInf(a) && f.Finite(b0) ==> f.IsInf(r) && f.Sign(r) == f.Sign(a)
    ensures f.Finite(a) && f.IsInf(b0) ==> f.IsInf(r) && f.Sign(r) == if sub then 1 - f.Sign(b0) else f.Sign(b0)
    ensures f.Finite(a) && f.Finite(b0)
        ==> RoundsTo(f, r, if sub then f.Value(a) - f.Value(b0) else f.Value(a) + f.Value(b0))
    // A zero from two zeros is negative exactly when both act as negative ones; one from numbers that
    // cancel keeps the first operand's sign.
    ensures f.IsZero(a) && f.IsZero(b0) ==>
      f.IsZero(r) && (f.Sign(r) == 1 <==> f.Sign(a) == 1 && f.Sign(b0) == if sub then 0 else 1)
    ensures f.Finite(a) && f.Finite(b0) && !f.IsZero(a) && f.Value(a) == (if sub then f.Value(b0) else -f.Value(b0)) ==>
      f.Sign(r) == f.Sign(a)
  {
    hide And, Or, Shl, Shr, Low, Pow2, Scale, FpIsNan, FpIsInf, FpIsZero, FpSign, FpNan, FpInf, NearestEven, RoundsTo;
    hide Format.Mag, Format.Pattern, Format.Sign, Format.Abs, Format.Inf;
    FpFields(a, f);
    FpFields(b0, f);
    NanIsNan(f);
    SignBitPattern(f);
    InfPositive(f);
    ZeroMagnitude(f, a);
    ZeroMagnitude(f, b0);
    var b := b0;
    var sa, sb := FpSign(a, f), FpSign(b, f);
    if sub { sb := 1 - sb; }
    InfWithSign(f, sa);
    InfWithSign(f, sb);
    if FpIsNan(a, f) || FpIsNan(b, f) { return FpNan(f); }
    if FpIsInf(a, f) {
      if FpIsInf(b, f) && sa != sb { return FpNan(f); }
      return FpInf(sa, f);
    }
    if FpIsInf(b, f) { return FpInf(sb, f); }
    if FpIsZero(a, f) && FpIsZero(b, f) {
      RoundsExact(f, 0);
      RoundsExact(f, f.SignBit());
      if sa != sb { return 0; }
      if sa != 0 { return f.SignBit(); }
      return 0;
    }
    if FpIsZero(a, f) {
      Resign(f, b, sb);
      MagZero(f, f.Abs(b));
      b := And(b, f.SignBit() - 1);
      if sb != 0 { b := Or(b, f.SignBit()); }
      RoundsExact(f, b);
      return b;
    }
    if FpIsZero(b, f) {
      MagZero(f, f.Abs(a));
      RoundsExact(f, a);
      return a;
    }
    r := AddFinite(a, b, sa, sb, f);
    RoundsPattern(f, r, Signed(sa, f.Mag(f.Abs(a))) + Signed(sb, f.Mag(f.Abs(b))));
  }

  lemma RoundsPattern(f: Format, r: nat, x: real)
    requires RoundsTo(f, r, x)
    ensures f.Pattern(r)
  {}

  // ----- multiplication -----

  const K: nat := 0x800_0000

  lemma LimbSize()
    ensures Pow2(27) == K && Pow2(26) == 0x400_0000 && Pow2(20) == 0x10_0000
  {
    assert Pow2(7) == 0x80;
    assert Pow2(14) == 0x4000;
    assert Pow2(20) == 0x10_0000;
    assert Pow2(26) == 0x400_0000;
  }

  /** A number below 2^54 in two limbs. */
  lemma TwoLimbs(x: nat)
    ensures x == Shr(x, 27) * K + And(x, K - 1) && And(x, K - 1) == Low(x, 27) < K
    ensures x < K * 0x400_0000 ==> Shr(x, 27) < 0x400_0000
  {
    hide Pow2, Shl, Shr, And, Low;
    LimbSize();
    Split(x, 27);
    ShlTimes(Shr(x, 27), 27);
    AndMask(x, 27);
  }

  /** The machine's multiplication; where it is used, an `I64` receives the result. */
  function Times(x: nat, y: nat): nat { x * y }

  lemma ProductBound(a: nat, b: nat, m: nat, n: nat)
    requires a <= m && b <= n
    ensures Times(a, b) <= m * n
  {
    MulMono(a, m, b);
    MulMono(b, n, m);
  }

  lemma MulMono(a: nat, b: nat, c: nat)
    requires a <= b
    ensures a * c <= b * c && c * a <= c * b
  {
    assert b * c == a * c + (b - a) * c;
  }

  lemma Schoolbook(x0: nat, x1: nat, y0: nat, y1: nat)
    ensures Times(x1 * K + x0, y1 * K + y0) == Times(x1, y1) * (K * K) + (Times(x0, y1) + Times(x1, y0)) * K
        + Times(x0, y0)
  {
    Distribute(x1 * K, x0, y1 * K + y0);
    Distribute(y1 * K, y0, x1 * K);
    Distribute(y1 * K, y0, x0);
    assert x1 * K * (y1 * K) == x1 * y1 * (K * K);
    assert x1 * K * y0 == x1 * y0 * K;
    assert x0 * (y1 * K) == x0 * y1 * K;
  }

  lemma Distribute(a: nat, b: nat, c: nat)
    ensures (a + b) * c == a * c + b * c && c * (a + b) == c * a + c * b
  {}

  lemma JamFromParts(v: nat, sh: nat, q: nat, r: nat)
    requires v == Shl(q, sh) + r && r < Pow2(sh)
    ensures Jam(v, sh) == if r == 0 then q else Or(q, 1)
  {
    SplitUnique(v, sh, q, r);
    OrOne(q);
  }

  /** The window that single precision takes out of the limbs: everything above the low 20 bits. */
  lemma NarrowWindow(l0: nat, l1: nat)
    requires l0 < K && l1 < K
    ensures Jam(l0 + l1 * K, 20) == (var w := Or(Or(Shr(l0, 20), Shl(l1, 7)), Shl(0, 34));
        if And(l0, Pow2(20) - 1) != 0 then Or(w, 1) else w)
    ensures Shr(l0, 20) < 0x80 && Shl(l1, 7) == l1 * 0x80
  {
    LimbSize();
    assert Pow2(7) == 0x80;
    hide Shl, Shr, Low, Or, And, Pow2, Jam;
    ShrBound(l0, 20, 7);
    OrDisjoint(l1, 7, Shr(l0, 20));
    ZeroShl(34);
    OrZeroRight(Shl(l1, 7) + Shr(l0, 20));
    ShlTimes(l1, 7);
    ShlTimes(Shl(l1, 7) + Shr(l0, 20), 20);
    ShlTimes(Shr(l0, 20), 20);
    Split(l0, 20);
    AndMask(l0, 20);
    JamFromParts(l0 + l1 * K, 20, Shl(l1, 7) + Shr(l0, 20), Low(l0, 20));
  }

  lemma OrZeroRight(x: nat)
    ensures Or(x, 0) == x
  {}

  lemma ShrBound(v: nat, a: nat, b: nat)
    requires v < Pow2(a + b)
    ensures Shr(v, a) < Pow2(b)
  {
    hide Shl, Shr, Low;
    Pow2Add(b, a);
    Split(v, a);
    if Shr(v, a) >= Pow2(b) { ShlMono(Pow2(b), Shr(v, a), a); }
  }

  /** The window that double precision takes: everything above the low 49 bits. */
  lemma WideWindow(l0: nat, l1: nat, l2: nat, l3: nat)
    requires l0 < K && l1 < K && l2 < K
    ensures Jam(l0 + l1 * K + l2 * (K * K) + l3 * (K * K * K), 49) ==
            (var w := Or(Or(Shr(l1, 22), Shl(l2, 5)), Shl(l3, 32)); if l0 != 0 || And(l1, Pow2(22) - 1) != 0
                then Or(w, 1) else w)
    ensures Shr(l1, 22) < 0x20 && Shl(l2, 5) == l2 * 0x20 && Shl(l3, 32) == l3 * 0x1_0000_0000
  {
    WideSizes();
    hide Shl, Shr, Low, Or, And, Pow2, Jam;
    ShrBound(l1, 22, 5);
    OrDisjoint(l2, 5, Shr(l1, 22));
    ShlTimes(l2, 5);
    var w := Shl(l2, 5) + Shr(l1, 22);
    OrDisjoint(l3, 32, w);
    ShlTimes(l3, 32);
    ShlTimes(Shl(l3, 32) + w, 49);
    ShlTimes(Shr(l1, 22), 22);
    Split(l1, 22);
    AndMask(l1, 22);
    JamFromParts(l0 + l1 * K + l2 * (K * K) + l3 * (K * K * K), 49, Shl(l3, 32) + w, Low(l1, 22) * K + l0);
  }

  lemma WideSizes()
    ensures Pow2(27) == K && Pow2(22) == 0x40_0000 && Pow2(5) == 0x20 && Pow2(32) == 0x1_0000_0000
        && Pow2(49) == 0x2_0000_0000_0000
  {
    assert Pow2(5) == 0x20;
    assert Pow2(10) == 0x400;
    assert Pow2(16) == 0x1_0000;
    assert Pow2(22) == 0x40_0000;
    assert Pow2(27) == K;
    assert Pow2(32) == 0x1_0000_0000;
    assert Pow2(38) == 0x40_0000_0000;
    assert Pow2(44) == 0x1000_0000_0000;
    assert Pow2(49) == 0x2_0000_0000_0000;
  }

  lemma Carry(z: nat)
    ensures z == Shr(z, 27) * K + And(z, K - 1) && And(z, K - 1) < K && Shr(z, 27) <= z
  {
    hide Shl, Shr, And, Low, Pow2;
    TwoLimbs(z);
  }

  /** The product of two 53-bit significands in base-2^27 limbs; no limb sum leaves the machine word. */
  method Limbs(x: I64, y: I64) returns (l0: I64, l1: I64, l2: I64, l3: I64)
    requires 0 <= x < 0x20_0000_0000_0000 && 0 <= y < 0x20_0000_0000_0000
    ensures 0 <= l0 < K && 0 <= l1 < K && 0 <= l2 < K && 0 <= l3 < 0x400_0000
    ensures Times(x, y) == l0 + l1 * K + l2 * (K * K) + l3 * (K * K * K)
  {
    hide Shl, Shr, Or, And, Low, Pow2, Times;
    TwoLimbs(x);
    TwoLimbs(y);
    var mask: I64 := K - 1;
    var x0: I64 := And(x, mask);
    var x1: I64 := Shr(x, 27);
    var y0: I64 := And(y, mask);
    var y1: I64 := Shr(y, 27);
    ProductBounds(x0, x1, y0, y1);
    Schoolbook(x0, x1, y0, y1);
    var z0: I64 := Times(x0, y0);
    var z1: I64 := Times(x0, y1) + Times(x1, y0);
    var z2: I64 := Times(x1, y1);
    l0, z1, z2, l1, l2, l3 := Carries(z0, z1, z2);
  }

  lemma ProductBounds(x0: nat, x1: nat, y0: nat, y1: nat)
    requires x0 < K && y0 < K && x1 < 0x400_0000 && y1 < 0x400_0000
    ensures Times(x0, y0) <= (K - 1) * (K - 1)
    ensures Times(x0, y1) <= (K - 1) * 0x3ff_ffff && Times(x1, y0) <= 0x3ff_ffff * (K - 1)
    ensures Times(x1, y1) <= 0x3ff_ffff * 0x3ff_ffff
  {
    hide Times;
    ProductBound(x0, y0, K - 1, K - 1);
    ProductBound(x0, y1, K - 1, 0x3ff_ffff);
    ProductBound(x1, y0, 0x3ff_ffff, K - 1);
    ProductBound(x1, y1, 0x3ff_ffff, 0x3ff_ffff);
  }

  /** Carries out of the column sums. */
  method Carries(z0: I64, z10: I64, z20: I64) returns (l0: I64, z1: I64, z2: I64, l1: I64, l2: I64, l3: I64)
    requires 0 <= z0 <= (K - 1) * (K - 1) && 0 <= z10 <= 2 * (K - 1) * 0x3ff_ffff && 0 <= z20 <= 0x3ff_ffff * 0x3ff_ffff
    ensures 0 <= l0 < K && 0 <= l1 < K && 0 <= l2 < K && 0 <= l3 < 0x400_0000
    ensures z20 * (K * K) + z10 * K + z0 == l0 + l1 * K + l2 * (K * K) + l3 * (K * K * K)
  {
    hide Shl, Shr, Or, And, Low, Pow2;
    var mask: I64 := K - 1;
    Carry(z0);
    l0 := And(z0, mask);
    z1 := z10 + Shr(z0, 27);
    Carry(z1);
    l1 := And(z1, mask);
    z2 := z20 + Shr(z1, 27);
    Carry(z2);
    l2 := And(z2, mask);
    l3 := Shr(z2, 27);
  }

  /** The part of the product that packing keeps, with the rest ored into its last bit. */
  method MulLimbs(x: I64, y: I64, f: Format) returns (ext: I64)
    requires f.Lead() <= x < 2 * f.Lead() && f.Lead() <= y < 2 * f.Lead()
    ensures ext == Jam(Times(x, y), f.P() - 4) && 0 <= ext < 0x4000_0000_0000_0000
  {
    hide Shl, Shr, Or, And, Low, Pow2, Jam, Times;
    LeadValues(f);
    var l0, l1, l2, l3 := Limbs(x, y);
    var sh := f.P() - 4;
    ext := 0;
    var sticky := false;
    if sh < 27 {
      ProductBound(x, y, 0x100_0000, 0x100_0000);
      NarrowWindow(l0, l1);
      NarrowFits(Shr(l0, 20), l1);
      ext := Or(Or(Shr(l0, sh), Shl(l1, 27 - sh)), Shl(l2, 54 - sh));
      if And(l0, Pow2(sh) - 1) != 0 { sticky := true; }
    } else {
      var s := sh - 27;
      WideWindow(l0, l1, l2, l3);
      WideFits(Shr(l1, 22), l2, l3);
      ext := Or(Or(Shr(l1, s), Shl(l2, 27 - s)), Shl(l3, 54 - s));
      if l0 != 0 || And(l1, Pow2(s) - 1) != 0 { sticky := true; }
    }
    OrOne(ext);
    if sticky { ext := Or(ext, 1); }
  }

  lemma LeadValues(f: Format)
    ensures f.Lead() == if f.F32? then 0x80_0000 else 0x10_0000_0000_0000
  {
    WideSizes();
    assert Pow2(22) == 0x40_0000 && Pow2(49) == 0x2_0000_0000_0000;
  }

  lemma NarrowFits(a: nat, l1: nat)
    requires a < 0x80 && l1 < K && Shl(l1, 7) == l1 * 0x80
    ensures Or(Or(a, Shl(l1, 7)), Shl(0, 34)) < 0x4000_0000_0000_0000
  {
    assert Pow2(7) == 0x80;
    hide Or, Shl, Pow2;
    OrDisjoint(l1, 7, a);
    ZeroShl(34);
    OrZeroRight(Shl(l1, 7) + a);
  }

  lemma WideFits(a: nat, l2: nat, l3: nat)
    requires a < 0x20 && l2 < K && l3 < 0x400_0000 && Shl(l2, 5) == l2 * 0x20 && Shl(l3, 32) == l3 * 0x1_0000_0000
    ensures Or(Or(a, Shl(l2, 5)), Shl(l3, 32)) < 0x4000_0000_0000_0000
  {
    WideSizes();
    hide Or, Shl, Pow2;
    OrDisjoint(l2, 5, a);
    OrDisjoint(l3, 32, Shl(l2, 5) + a);
  }

  /** The exact product of two scaled significands. */
  lemma ProductValue(x: nat, y: nat, m: int, n: int)
    ensures Scale(x as real, m) * Scale(y as real, n) == Scale(Times(x, y) as real, m + n)
  {
    var a, b := x as real, y as real;
    var w := Scale(b, n);
    hide Scale;
    ScaleMul(a, w, m);
    ScaleMul(b, a, n);
    var c, z := Times(x, y) as real, a * w;
    assert z == Scale(c, n) by { assert z == w * a && c == b * a; }
    ScaleScale(c, n, m);
  }

  lemma LeadSquare(f: Format, x: nat, y: nat)
    requires f.Lead() <= x && f.Lead() <= y
    ensures Pow2(f.P() + 1 + (f.P() - 4)) <= Times(x, y)
  {
    hide Pow2, Shl, Times;
    LeadProduct(f.Lead(), f.Lead(), x, y);
    ShlTimes(f.Lead(), f.P() - 1);
    Pow2Add(f.P() - 1, f.P() - 1);
    Pow2Mono(f.P() + 1 + (f.P() - 4), f.P() - 1 + (f.P() - 1));
  }

  lemma LeadProduct(a: nat, b: nat, x: nat, y: nat)
    requires a <= x && b <= y
    ensures a * b <= Times(x, y)
  {
    MulMono(a, x, b);
    MulMono(b, y, x);
  }

  /** The exact product and quotient of two finite values. */
  function Product(f: Format, a: nat, b: nat): real { f.Value(a) * f.Value(b) }

  function Quotient(f: Format, a: nat, b: nat): real
    requires f.Value(b) != 0.0
  {
    f.Value(a) / f.Value(b)
  }

  lemma SignedMul(s: nat, t: nat, m: real, n: real)
    requires s <= 1 && t <= 1
    ensures Signed(s, m) * Signed(t, n) == Signed(if s == t then 0 else 1, m * n)
    ensures m == 0.0 || n == 0.0 ==> m * n == 0.0
  {
    assert (-m) * n == -(m * n);
    assert m * (-n) == -(m * n);
    assert (-m) * (-n) == m * n;
  }

  lemma SignedDiv(s: nat, t: nat, m: real, n: real)
    requires s <= 1 && t <= 1 && n > 0.0
    ensures Signed(t, n) != 0.0 && Signed(s, m) / Signed(t, n) == Signed(if s == t then 0 else 1, m / n)
    ensures m == 0.0 ==> m / n == 0.0
  {
    assert (-m) / n == -(m / n);
    assert m / (-n) == -(m / n);
    assert (-m) / (-n) == m / n;
  }

  lemma SignedProduct(f: Format, a: nat, b: nat, m: real)
    requires f.Sign(a) <= 1 && f.Sign(b) <= 1 && m == f.Mag(f.Abs(a)) * f.Mag(f.Abs(b))
    ensures Product(f, a, b) == Signed(if f.Sign(a) == f.Sign(b) then 0 else 1, m)
    ensures f.Mag(f.Abs(a)) == 0.0 || f.Mag(f.Abs(b)) == 0.0 ==> Product(f, a, b) == 0.0
  {
    hide Format.Mag, Format.Abs, Format.Sign;
    SignedMul(f.Sign(a), f.Sign(b), f.Mag(f.Abs(a)), f.Mag(f.Abs(b)));
  }

  lemma SignedQuotient(f: Format, a: nat, b: nat)
    requires f.Sign(a) <= 1 && f.Sign(b) <= 1 && f.Mag(f.Abs(b)) > 0.0
    ensures f.Value(b) != 0.0 && Quotient(f, a, b)
        == Signed(if f.Sign(a) == f.Sign(b) then 0 else 1, f.Mag(f.Abs(a)) / f.Mag(f.Abs(b)))
    ensures f.Mag(f.Abs(a)) == 0.0 ==> Quotient(f, a, b) == 0.0
  {
    hide Format.Mag, Format.Abs, Format.Sign;
    SignedDiv(f.Sign(a), f.Sign(b), f.Mag(f.Abs(a)), f.Mag(f.Abs(b)));
  }

  /** The sign of a product or a quotient. */
  function XorSign(a: nat, b: nat, f: Format): nat { if FpSign(a, f) == FpSign(b, f) then 0 else 1 }

  lemma MulExact(f: Format, a: nat, b: nat, x: nat, ea: int, y: nat, eb: int)
    requires f.Pattern(a) && f.Pattern(b)
    requires f.Mag(f.Abs(a)) == Scale(x as real, ea - (f.P() - 1))
        && f.Mag(f.Abs(b)) == Scale(y as real, eb - (f.P() - 1))
    ensures Product(f, a, b) == Signed(XorSign(a, b, f),
        Scale(Scale(Times(x, y) as real, 4 - f.P()), ea + eb - (f.P() + 2)))
  {
    hide Scale, Times, FpSign, Product, Signed, Format.Mag, Format.Pattern, Format.Sign, Format.Abs, Pow2, Shl, Shr,
        Low, And, Or;
    FpFields(a, f);
    FpFields(b, f);
    MulMagnitudes(f.Mag(f.Abs(a)), f.Mag(f.Abs(b)), x, ea, y, eb, f.P());
    SignedProduct(f, a, b, Scale(Scale(Times(x, y) as real, 4 - f.P()), ea + eb - (f.P() + 2)));
  }

  lemma MulMagnitudes(ma: real, mb: real, x: nat, ea: int, y: nat, eb: int, p: int)
    requires ma == Scale(x as real, ea - (p - 1)) && mb == Scale(y as real, eb - (p - 1))
    ensures ma * mb == Scale(Scale(Times(x, y) as real, 4 - p), ea + eb - (p + 2))
  {
    hide Scale, Times;
    ProductValue(x, y, ea - (p - 1), eb - (p - 1));
    ScaleScale(Times(x, y) as real, 4 - p, ea + eb - (p + 2));
  }

  method MulFinite(a: nat, b: nat, f: Format) returns (r: nat)
    requires f.Pattern(a) && f.Pattern(b) && f.Finite(a) && f.Finite(b) && !f.IsZero(a) && !f.IsZero(b)
    ensures RoundsTo(f, r, Product(f, a, b)) && f.Sign(r) == XorSign(a, b, f)
  {
    hide Pow2, Scale, Times, Jam, Packing, RoundsTo, FpSign, Signed, Product, Format.Mag, Format.Pattern, Format.Sign,
        Format.Abs;
    FpFields(a, f);
    FpFields(b, f);
    var x, ea := Unpack(a, f);
    var y, eb := Unpack(b, f);
    var p: int := f.P();
    MulExact(f, a, b, x, ea, y, eb);
    LeadSquare(f, x, y);
    JamPacks(f, Times(x, y), p - 4);
    CastPowers();
    var ext := MulLimbs(x, y, f);
    ghost var t := Scale(Times(x, y) as real, 4 - p);
    PackingGuarded(f, ext, t);
    r := PackSigned(XorSign(a, b, f), ea + eb, ext, f, t, Product(f, a, b));
  }

  /** Multiplication. */
  method FpMul(a: nat, b: nat, f: Format) returns (r: nat)
    requires f.Pattern(a) && f.Pattern(b)
    ensures f.Pattern(r)
    ensures f.IsNan(a) || f.IsNan(b) || (f.IsInf(a) && f.IsZero(b)) || (f.IsZero(a) && f.IsInf(b)) ==> r == FpNan(f)
    ensures !f.IsNan(a) && !f.IsNan(b) && (f.IsInf(a) || f.IsInf(b)) && !f.IsZero(a) && !f.IsZero(b) ==>
      f.IsInf(r) && f.Sign(r) == (if f.Sign(a) == f.Sign(b) then 0 else 1)
    ensures f.Finite(a) && f.Finite(b) ==>
      RoundsTo(f, r, Product(f, a, b)) && f.Sign(r) == if f.Sign(a) == f.Sign(b) then 0 else 1
  {
    Kinds(a, f);
    Kinds(b, f);
    hide FpIsNan, FpIsInf, FpIsZero, XorSign, FpNan, FpInf, RoundsTo, Product;
    hide Format.Pattern, Format.Sign, Format.IsNan, Format.IsInf, Format.IsZero, Format.Finite;
    NanIsNan(f);
    XorSignBit(a, b, f);
    var sign := XorSign(a, b, f);
    InfWithSign(f, sign);
    if FpIsNan(a, f) || FpIsNan(b, f) { return FpNan(f); }
    if FpIsInf(a, f) || FpIsInf(b, f) {
      if FpIsZero(a, f) || FpIsZero(b, f) { return FpNan(f); }
      return FpInf(sign, f);
    }
    if FpIsZero(a, f) || FpIsZero(b, f) {
      ZeroTimes(f, a, b);
      r := PackZero(sign, f);
      return;
    }
    r := MulFinite(a, b, f);
    RoundsPattern(f, r, Product(f, a, b));
  }

  /** A pattern is a NaN, an infinity or finite; a zero is finite; and the tests tell which. */
  lemma Kinds(v: nat, f: Format)
    requires f.Pattern(v)
    ensures (FpIsNan(v, f) <==> f.IsNan(v)) && (FpIsInf(v, f) <==> f.IsInf(v)) && (FpIsZero(v, f) <==> f.IsZero(v))
    ensures f.IsNan(v) ==> !f.IsInf(v) && !f.Finite(v)
    ensures f.IsInf(v) ==> !f.Finite(v)
    ensures f.IsNan(v) || f.IsInf(v) || f.Finite(v)
    ensures f.IsZero(v) ==> f.Finite(v)
    ensures FpSign(v, f) == f.Sign(v) <= 1
  {
    hide FpIsNan, FpIsInf, FpIsZero, FpSign, Format.Abs, Format.Sign;
    FpFields(v, f);
    InfPositive(f);
  }

  lemma InfPositive(f: Format)
    ensures f.Inf() > 0
  {}

  lemma XorSignBit(a: nat, b: nat, f: Format)
    requires f.Pattern(a) && f.Pattern(b)
    ensures XorSign(a, b, f) == if f.Sign(a) == f.Sign(b) then 0 else 1
  {
    FpFields(a, f);
    FpFields(b, f);
  }

  lemma ZeroTimes(f: Format, a: nat, b: nat)
    requires f.Pattern(a) && f.Pattern(b) && (f.IsZero(a) || f.IsZero(b))
    ensures Product(f, a, b) == 0.0
  {
    hide FpSign, Product, Format.Mag, Format.Abs, Format.Sign;
    FpFields(a, f);
    FpFields(b, f);
    ZeroMagnitude(f, a);
    ZeroMagnitude(f, b);
    SignedProduct(f, a, b, f.Mag(f.Abs(a)) * f.Mag(f.Abs(b)));
  }

  /** `ct_fp_pack(sign, 0, 0, ...)`: a signed zero. */
  method PackZero(sign: nat, f: Format) returns (r: nat)
    requires sign <= 1
    ensures f.Pattern(r) && f.Sign(r) == sign && f.IsZero(r) && RoundsTo(f, r, 0.0)
  {
    hide Pow2, Scale, Packing, Format.Mag, Format.Pattern, Format.Sign, Format.Abs, NearestEven, RoundsTo;
    r := PackSigned(sign, 0, 0, f, 0.0, 0.0);
    RoundsPattern(f, r, 0.0);
  }

  // ----- division -----

  lemma TimesStep(q: nat, d: nat)
    ensures Times(2 * q, d) == 2 * Times(q, d) && Times(2 * q + 1, d) == 2 * Times(q, d) + d
  {
    assert 2 * q * d == 2 * (q * d);
    assert (2 * q + 1) * d == 2 * q * d + d;
  }

  lemma QuotientDigit(q: nat)
    ensures Shl(q, 1) == 2 * q && Or(2 * q, 1) == 2 * q + 1
  {
    Doubling(q);
    OrOne(2 * q);
  }

  lemma PowerTwice(n: nat)
    ensures Pow2(n + 1) == 2 * Pow2(n)
  {}

  lemma ShlTwice(x: nat, n: nat)
    ensures Shl(x, n + 1) == 2 * Shl(x, n)
  {}

  lemma UnitTimes(d: nat)
    ensures Times(1, d) == d && Pow2(0) == 1 && Shl(d, 0) == d
  {}

  /** Long division: P + 3 quotient digits, the last one sticky. */
  method LongDivide(num0: I64, den: I64, p: nat) returns (q: I64, ghost q0: nat, ghost rem: nat)
    requires p <= 53 && 0 < den <= num0 < 2 * den && num0 < 0x1000_0000_0000_0000
    ensures rem < den && Pow2(p + 2) <= q0 < Pow2(p + 3)
    ensures Times(q0, den) + rem == Shl(num0, p + 2)
    ensures q == if rem == 0 then q0 else Or(q0, 1)
  {
    hide Shl, Or, Pow2, Times;
    UnitTimes(den);
    UnitTimes(num0);
    var num: I64 := num0 - den;
    q := 1;
    var i := 0;
    PowerTwice(0);
    while i < p + 2
      invariant 0 <= i <= p + 2 && 0 <= num < den
      invariant Pow2(i) <= q < Pow2(i + 1)
      invariant Times(q, den) + num == Shl(num0, i)
    {
      Doubling(num);
      QuotientDigit(q);
      TimesStep(q, den);
      PowerTwice(i);
      PowerTwice(i + 1);
      ShlTwice(num0, i);
      PowerBound(i + 2);
      num := Shl(num, 1);
      q := Shl(q, 1);
      if num >= den {
        num := num - den;
        q := Or(q, 1);
      }
      i := i + 1;
    }
    q0, rem := q, num;
    OrOne(q);
    PowerBound(p + 3);
    if num != 0 { q := Or(q, 1); }
  }

  lemma PowerBound(n: nat)
    requires n <= 58
    ensures Pow2(n) <= 0x400_0000_0000_0000
  {
    WordSizes();
    assert Pow2(58) == 2 * Pow2(57);
    Pow2Mono(n, 58);
  }

  /** The sticky quotient represents the exact one. */
  lemma QuotientJammed(q0: nat, rem: nat, den: nat, n: nat)
    requires rem < den && Times(q0, den) + rem == n
    ensures Jammed(if rem == 0 then q0 else Or(q0, 1), n as real / den as real)
  {
    hide Or;
    OrOne(q0);
    var d, t := den as real, n as real / den as real;
    assert n as real == q0 as real * d + rem as real;
    QuotientRest(q0 as real, d, rem as real, n as real);
    QuotientCell(t - q0 as real, d, rem as real);
  }

  lemma QuotientRest(q: real, d: real, r: real, n: real)
    requires d > 0.0 && n == q * d + r
    ensures (n / d - q) * d == r
  {
    var t := n / d;
    assert t * d == n;
    assert (t - q) * d == t * d - q * d;
  }

  lemma QuotientCell(u: real, d: real, r: real)
    requires d > 0.0 && u * d == r && 0.0 <= r < d
    ensures 0.0 <= u < 1.0 && (r == 0.0 <==> u == 0.0)
  {
    RealCompare(u, 1.0, d, r, d);
    RealCompare(u, 0.0, d, r, 0.0);
    RealCompare(0.0, u, d, 0.0, r);
  }

  lemma RealCompare(x: real, y: real, d: real, xd: real, yd: real)
    requires d > 0.0 && xd == x * d && yd == y * d
    ensures x < y <==> xd < yd
  {
    var z := y - x;
    assert z * d == yd - xd;
    assert z > 0.0 <==> z * d > 0.0;
  }

  /** The exact quotient of two scaled significands. */
  lemma QuotientValue(num: nat, den: nat, m: int, n: int, t: real, e: int)
    requires den > 0 && t * (den as real) == Scale(num as real, e)
    ensures Scale(den as real, n) > 0.0
    ensures Scale(num as real, m) / Scale(den as real, n) == Scale(t, m - n - e)
  {
    var a, b := num as real, den as real;
    var w := Scale(b, n);
    hide Scale;
    ScaleMono(0.0, b, n);
    ScaleMul(t, w, m - n - e);
    ScaleMul(b, t, n);
    var z, bt := t * w, b * t;
    assert bt == Scale(a, e) by { assert bt == t * b; }
    assert z == Scale(bt, n) by { assert z == w * t; }
    ScaleScale(Scale(a, e), n, m - n - e);
    ScaleScale(a, e, m - e);
    assert Scale(t, m - n - e) * w == Scale(a, m);
    DivideBack(Scale(t, m - n - e), w, Scale(a, m));
  }

  lemma DivideBack(q: real, w: real, x: real)
    requires w > 0.0 && q * w == x
    ensures x / w == q
  {}

  lemma DivExact(f: Format, a: nat, b: nat, num: nat, ea: int, den: nat, eb: int, t: real)
    requires f.Pattern(a) && f.Pattern(b) && den > 0
    requires f.Mag(f.Abs(a)) == Scale(num as real, ea - (f.P() - 1))
        && f.Mag(f.Abs(b)) == Scale(den as real, eb - (f.P() - 1))
    requires t * (den as real) == Scale(num as real, f.P() + 2)
    ensures f.Value(b) != 0.0 && Quotient(f, a, b) == Signed(XorSign(a, b, f), Scale(t, ea - eb - (f.P() + 2)))
  {
    hide Scale, FpSign, Quotient, Format.Mag, Format.Pattern, Format.Sign, Format.Abs, Format.Value;
    FpFields(a, f);
    FpFields(b, f);
    QuotientValue(num, den, ea - (f.P() - 1), eb - (f.P() - 1), t, f.P() + 2);
    SignedQuotient(f, a, b);
  }

  lemma QuotientTimes(num: nat, den: nat, n: nat, e: int)
    requires den > 0 && e >= 0 && n == Shl(num, e)
    ensures (n as real / den as real) * (den as real) == Scale(num as real, e)
  {
    ScaleShl(num, e);
  }

  method DivFinite(a: nat, b: nat, f: Format) returns (r: nat)
    requires f.Pattern(a) && f.Pattern(b) && f.Finite(a) && f.Finite(b) && !f.IsZero(a) && !f.IsZero(b)
    ensures f.Value(b) != 0.0 && RoundsTo(f, r, Quotient(f, a, b)) && f.Sign(r) == XorSign(a, b, f)
  {
    hide Pow2, Shl, Or, Scale, Times, Packing, Jammed, RoundsTo, XorSign, Signed, Quotient, Format.Mag,
        Format.Pattern, Format.Sign, Format.Abs, Format.Value;
    XorSignBit(a, b, f);
    var num, ea := Unpack(a, f);
    var den, eb := Unpack(b, f);
    var p: int := f.P();
    LeadValues(f);
    if num < den {
      NormalizeStep(num, ea - (p - 1));
      num := Shl(num, 1);
      ea := ea - 1;
    }
    ghost var n := Shl(num, p + 2);
    ghost var t := n as real / den as real;
    var q, q0, rem := LongDivide(num, den, p);
    QuotientJammed(q0, rem, den, n);
    QuotientTimes(num, den, n, p + 2);
    DivExact(f, a, b, num, ea, den, eb, t);
    OrOne(q0);
    CastPowers();
    PowerBound(p + 3);
    PowerTwice(p + 1);
    PackingJammed(f, q, t);
    r := PackSigned(XorSign(a, b, f), ea - eb, q, f, t, Quotient(f, a, b));
  }

  lemma ZeroOver(f: Format, a: nat, b: nat)
    requires f.Pattern(a) && f.Pattern(b) && !f.IsZero(b)
    ensures f.Value(b) != 0.0
    ensures f.IsZero(a) ==> Quotient(f, a, b) == 0.0
  {
    hide FpSign, Quotient, Format.Mag, Format.Abs, Format.Sign;
    FpFields(a, f);
    FpFields(b, f);
    ZeroMagnitude(f, a);
    MagZero(f, f.Abs(b));
    SignedQuotient(f, a, b);
  }

  /** r is the correctly rounded quotient, with the sign of the quotient even if it is zero. */
  ghost predicate QuotientRounded(f: Format, a: nat, b: nat, r: nat) {
    f.Value(b) != 0.0 && RoundsTo(f, r, Quotient(f, a, b)) && f.Sign(r) == (if f.Sign(a) == f.Sign(b) then 0 else 1)
  }

  /** Division. */
  method FpDiv(a: nat, b: nat, f: Format) returns (r: nat)
    requires f.Pattern(a) && f.Pattern(b)
    ensures f.Pattern(r)
    ensures f.IsNan(a) || f.IsNan(b) || (f.IsInf(a) && f.IsInf(b)) || (f.IsZero(a) && f.IsZero(b)) ==> r == FpNan(f)
    ensures (f.IsInf(a) && f.Finite(b)) || (f.Finite(a) && !f.IsZero(a) && f.IsZero(b)) ==>
      f.IsInf(r) && f.Sign(r) == (if f.Sign(a) == f.Sign(b) then 0 else 1)
    ensures f.Finite(a) && f.IsInf(b) ==> f.IsZero(r) && f.Sign(r) == (if f.Sign(a) == f.Sign(b) then 0 else 1)
    ensures f.Finite(a) && f.Finite(b) && !f.IsZero(b) ==> QuotientRounded(f, a, b, r)
  {
    Kinds(a, f);
    Kinds(b, f);
    hide FpIsNan, FpIsInf, FpIsZero, XorSign, FpNan, FpInf, RoundsTo, Quotient;
    hide Format.Pattern, Format.Sign, Format.IsNan, Format.IsInf, Format.IsZero, Format.Finite, Format.Value;
    NanIsNan(f);
    XorSignBit(a, b, f);
    var sign := XorSign(a, b, f);
    InfWithSign(f, sign);
    if FpIsNan(a, f) || FpIsNan(b, f) { return FpNan(f); }
    if FpIsInf(a, f) && FpIsInf(b, f) { return FpNan(f); }
    if FpIsInf(a, f) { return FpInf(sign, f); }
    if FpIsInf(b, f) {
      r := PackZero(sign, f);
      return;
    }
    if FpIsZero(b, f) {
      if FpIsZero(a, f) { return FpNan(f); }
      return FpInf(sign, f);
    }
    ZeroOver(f, a, b);
    if FpIsZero(a, f) {
      r := PackZero(sign, f);
      return;
    }
    r := DivFinite(a, b, f);
    RoundsPattern(f, r, Quotient(f, a, b));
  }

  // ----- comparison -----

  /** -1, 0 or 1, or 2 for an unordered pair. */
  function FpCmp(a: nat, b: nat, f: Format): int
  {
    if FpIsNan(a, f) || FpIsNan(b, f) then 2
    else if FpIsZero(a, f) && FpIsZero(b, f) then 0
    else
      var sa, sb := FpSign(a, f), FpSign(b, f);
      if sa != sb then (if sa != 0 then -1 else 1)
      else
        var ma, mb := And(a, f.SignBit() - 1), And(b, f.SignBit() - 1);
        if ma == mb then 0
        else if ma < mb then (if sa != 0 then 1 else -1)
        else (if sa != 0 then -1 else 1)
  }

  /** Comparing bit patterns compares values; an infinity counts as the value beyond every finite one. */
  lemma FpCmpCorrect(a: nat, b: nat, f: Format)
    requires f.Pattern(a) && f.Pattern(b)
    ensures FpCmp(a, b, f) == 2 <==> f.IsNan(a) || f.IsNan(b)
    ensures !f.IsNan(a) && !f.IsNan(b) ==>
              && (FpCmp(a, b, f) == -1 <==> f.Value(a) < f.Value(b))
              && (FpCmp(a, b, f) == 0 <==> f.Value(a) == f.Value(b))
              && (FpCmp(a, b, f) == 1 <==> f.Value(a) > f.Value(b))
  {
    hide FpIsNan, FpIsZero, FpSign, And, Pow2, Format.Mag, Format.Abs, Format.Sign, Format.IsNan, Format.Pattern;
    FpFields(a, f);
    FpFields(b, f);
    AbsMask(a, f);
    AbsMask(b, f);
    MagZero(f, f.Abs(a));
    MagZero(f, f.Abs(b));
    if f.Abs(a) < f.Abs(b) { MagMono(f, f.Abs(a), f.Abs(b)); }
    else { MagMono(f, f.Abs(b), f.Abs(a)); }
    SignedOrder(f.Sign(a), f.Sign(b), f.Abs(a), f.Abs(b), f.Mag(f.Abs(a)), f.Mag(f.Abs(b)));
  }

  /** The order of two signs and magnitudes, as patterns and as numbers. */
  lemma SignedOrder(sa: nat, sb: nat, ma: nat, mb: nat, xa: real, xb: real)
    requires sa <= 1 && sb <= 1 && xa >= 0.0 && xb >= 0.0 && (ma > 0 <==> xa > 0.0) && (mb > 0 <==> xb > 0.0)
    requires (ma < mb <==> xa < xb) && (ma == mb <==> xa == xb)
    ensures var x, y := if sa == 0 then xa else -xa, if sb == 0 then xb else -xb;
      var r :=
        if ma == 0 && mb == 0 then 0
        else if sa != sb then (if sa != 0 then -1 else 1)
        else if ma == mb then 0
        else if ma < mb then (if sa != 0 then 1 else -1)
        else (if sa != 0 then -1 else 1);
      (r == -1 <==> x < y) && (r == 0 <==> x == y) && (r == 1 <==> x > y)
  {}

  lemma AbsMask(v: nat, f: Format)
    ensures And(v, f.SignBit() - 1) == f.Abs(v)
  {
    hide And, Low, Pow2;
    AndMask(v, f.Width() - 1);
  }

  // ----- the code generator's own narrowing -----

  lemma SignedPattern(f: Format, sign: nat, m: nat)
    requires sign <= 1 && m <= f.Inf()
    ensures var v := Or(Shl(sign, f.Width() - 1), m);
      v == Shl(sign, f.Width() - 1) + m && f.Pattern(v) && f.Sign(v) == sign && f.Abs(v) == m
  {
    var w := f.Width() - 1;
    hide Pow2, Shl, Shr, Low, Or, Format.Inf;
    InfBelowSign(f);
    ShlOne(w);
    OrDisjoint(sign, w, m);
    SplitUnique(Shl(sign, w) + m, w, sign, m);
  }

  /** Rounding a fraction given as quotient, remainder and half. */
  lemma RoundAt(f: Format, m: nat, out: nat, e: int, u: real, up: bool)
    requires m < f.Inf() && m % 2 == out % 2
    requires f.Mag(m) == Scale(out as real, e) && f.Mag(m + 1) == Scale(out as real + 1.0, e)
    requires out as real <= u <= out as real + 1.0
    requires up <==> u - out as real > 0.5 || (u - out as real == 0.5 && out % 2 == 1)
    ensures NearestEven(f, if up then m + 1 else m, Scale(u, e))
  {
    hide Scale, Format.Mag, Format.Inf;
    CellOrder(out as real, u, e);
    NearestInCell(f, m, up, Scale(u, e));
  }

  /** The remainder of a shift against half says where the exact quotient lies. */
  lemma ShiftedFraction(sig: nat, shift: int)
    requires shift >= 1
    ensures var u, out, rem, half := Scale(sig as real, -shift), Shr(sig, shift), Low(sig, shift), Pow2(shift - 1);
      && out as real <= u <= out as real + 1.0
      && (rem > half <==> u - out as real > 0.5) && (rem == half <==> u - out as real == 0.5)
  {
    var u, out, rem := Scale(sig as real, -shift), Shr(sig, shift), Low(sig, shift);
    var half := Pow2(shift - 1);
    assert Pow2(shift) == 2 * half;
    hide Shr, Low, Shl, Scale, Pow2;
    Split(sig, shift);
    ScaleBack(out, shift);
    assert sig as real == Shl(out, shift) as real + rem as real;
    ScaleAdd(Shl(out, shift) as real, rem as real, -shift);
    HalfUnit(shift);
    ScaleMono(rem as real, half as real, -shift);
    ScaleMono(half as real, rem as real, -shift);
    ScaleMono(0.0, rem as real, -shift);
    ScaleMono(rem as real, Pow2(shift) as real, -shift);
  }

  lemma HalfUnit(shift: int)
    requires shift >= 1
    ensures Scale(Pow2(shift - 1) as real, -shift) == 0.5 && Scale(Pow2(shift) as real, -shift) == 1.0
  {
    ShlOne(shift);
    ShlOne(shift - 1);
    ScaleBack(1, shift);
    ScaleBack(1, shift - 1);
    ScaleStep(Pow2(shift - 1) as real, -shift);
  }

  /** Values up to half the smallest subnormal round to zero. */
  lemma TinyRoundsToZero(x: real)
    requires 0.0 <= x <= Scale(1.0, -150)
    ensures NearestEven(F32, 0, x) && 0 < F32.Inf()
  {
    hide Scale, Format.Mag, NearestEven;
    InfPositive(F32);
    ScaleStep(1.0, -150);
    TinyMags();
    NearestInCell(F32, 0, false, x);
  }

  lemma TinyMags()
    ensures F32.Mag(0) == 0.0 && F32.Mag(1) == Scale(1.0, -149)
  {
    SubnormalPattern(F32, 1) by { LeadValues(F32); }
    hide *;
    MagZero(F32, 0);
    SingleLast();
  }

  lemma SingleLast()
    ensures F32.Emin() - (F32.P() - 1) == -149 && 1 as real == 1.0
  {
  }

  /** Magnitudes below 2^-150 are all the narrowing sees when the biased f32 exponent is under -23,
      and when the operand is subnormal. */
  lemma NarrowTiny(b: nat)
    requires F64.Pattern(b) && FpExp(b, F64) < 873
    ensures NearestEven(F32, 0, F64.Mag(F64.Abs(b)))
  {
    var exp: int, man: nat := FpExp(b, F64), FpFrac(b, F64);
    hide Scale, FpExp, FpFrac, Format.Mag, Format.Pattern, NearestEven, Pow2;
    FractionValue(b, F64);
    FpFields(b, F64);
    CastPowers();
    LeadValues(F64);
    MagZero(F64, F64.Abs(b));
    var e: int := if exp == 0 then 0 - 1074 else exp - 1075;
    var s: nat := if exp == 0 then man else F64.Lead() + man;
    ScaleMono(s as real, 0x20_0000_0000_0000 as real, e);
    TopBit(e);
    ScaleOneMono(e + 53, -150);
    TinyRoundsToZero(F64.Mag(F64.Abs(b)));
  }

  lemma TopBit(e: int)
    ensures Scale(0x20_0000_0000_0000 as real, e) == Scale(1.0, e + 53)
  {
    PowerOf53();
    ScaleShl(1, 53);
    ScaleScale(1.0, 53, e);
  }

  lemma PowerOf53()
    ensures Shl(1, 53) == 0x20_0000_0000_0000
  {
    ShlOne(53);
    WideSizes();
    assert Pow2(53) == 0x20_0000_0000_0000;
  }

  lemma {:induction false} ScaleOneMono(a: int, b: int)
    requires a <= b
    ensures 0.0 < Scale(1.0, a) <= Scale(1.0, b)
    decreases b - a
  {
    ScaleMono(0.0, 1.0, a);
    if a < b {
      ScaleOneMono(a, b - 1);
      ScaleStep(1.0, b - 1);
    }
  }

  /** The kept digits of a 53-bit significand, between the powers of two that bound them. */
  lemma ShiftRange(sig: nat, shift: nat)
    requires 0x10_0000_0000_0000 <= sig < 0x20_0000_0000_0000 && 29 <= shift <= 53
    ensures Shr(sig, shift) < Pow2(53 - shift)
    ensures shift == 29 ==> 0x80_0000 <= Shr(sig, shift) < 0x100_0000
    ensures shift >= 30 ==> Shr(sig, shift) < 0x80_0000
  {
    WideSizes();
    LeadValues(F64);
    LeadValues(F32);
    assert Pow2(53) == 2 * Pow2(52) && Pow2(24) == 2 * Pow2(23);
    hide Shr, Pow2;
    ShrBound(sig, shift, 53 - shift);
    ShrPow2(23, 29);
    ShrMono(Pow2(52), sig, 29);
    if shift >= 30 { Pow2Mono(53 - shift, 23); }
  }

  /** A double as a shifted significand. */
  lemma NarrowValue(b: nat, shift: int)
    requires F64.Pattern(b) && FpExp(b, F64) > 0
    ensures var sig := F64.Lead() + FpFrac(b, F64);
      F64.Mag(F64.Abs(b)) == Scale(Scale(sig as real, -shift), FpExp(b, F64) - 1075 + shift)
  {
    hide Scale, FpExp, FpFrac, Format.Mag, Format.Pattern, Pow2;
    FractionValue(b, F64);
    ScaleScale((F64.Lead() + FpFrac(b, F64)) as real, -shift, FpExp(b, F64) - 1075 + shift);
  }

  lemma NarrowNormal(b: nat, out: nat, up: bool) returns (m: nat)
    requires F64.Pattern(b) && 897 <= FpExp(b, F64) < 1151
    requires var sig := F64.Lead() + FpFrac(b, F64);
      && out == Shr(sig, 29)
      && (up <==> Low(sig, 29) > Pow2(28) || (Low(sig, 29) == Pow2(28) && out % 2 == 1))
    ensures 0x80_0000 <= out < 0x100_0000
    ensures m == Shl(FpExp(b, F64) - 896, 23) + (out - 0x80_0000) + (if up then 1 else 0)
    ensures NearestEven(F32, m, F64.Mag(F64.Abs(b)))
  {
    LeadValues(F32);
    LeadValues(F64);
    FpFields(b, F64);
    hide Scale, FpExp, FpFrac, Format.Mag, Format.Pattern, Format.Inf, NearestEven, Pow2, Shr, Low, Shl;
    var sig := F64.Lead() + FpFrac(b, F64);
    ShiftRange(sig, 29);
    ShiftedFraction(sig, 29);
    NarrowValue(b, 29);
    m := RoundNormalAt(FpExp(b, F64) - 1023, out, Scale(sig as real, -29), up);
  }

  lemma RoundNormalAt(exp: int, out: nat, u: real, up: bool) returns (m: nat)
    requires -126 <= exp < 128 && F32.Lead() <= out < 2 * F32.Lead()
    requires out as real <= u <= out as real + 1.0
    requires up <==> u - out as real > 0.5 || (u - out as real == 0.5 && out % 2 == 1)
    ensures m == Shl(exp + 127, 23) + (out - F32.Lead()) + (if up then 1 else 0)
    ensures NearestEven(F32, m, Scale(u, exp - 23))
  {
    hide Scale, Format.Mag, Format.Inf, NearestEven, Pow2, Shl, Format.Lead;
    var n := NormalPattern(F32, exp, out);
    RoundAt(F32, n, out, exp - 23, u, up);
    m := if up then n + 1 else n;
  }

  lemma NarrowSubnormal(b: nat, shift: int, out: nat, up: bool)
    requires F64.Pattern(b) && 873 <= FpExp(b, F64) <= 896 && shift == 926 - FpExp(b, F64)
    requires var sig := F64.Lead() + FpFrac(b, F64);
      && out == Shr(sig, shift)
      && (up <==> Low(sig, shift) > Pow2(shift - 1) || (Low(sig, shift) == Pow2(shift - 1) && out % 2 == 1))
    ensures out < 0x80_0000
    ensures NearestEven(F32, if up then out + 1 else out, F64.Mag(F64.Abs(b)))
  {
    LeadValues(F32);
    LeadValues(F64);
    FpFields(b, F64);
    hide Scale, FpExp, FpFrac, Format.Mag, Format.Pattern, Format.Inf, NearestEven, Pow2, Shr, Low, Shl;
    var sig := F64.Lead() + FpFrac(b, F64);
    ShiftRange(sig, shift);
    SubnormalPattern(F32, out);
    ShiftedFraction(sig, shift);
    RoundAt(F32, out, out, -149, Scale(sig as real, -shift), up);
    NarrowValue(b, shift);
  }

  lemma NarrowOverflow(b: nat)
    requires F64.Pattern(b) && F64.Finite(b) && FpExp(b, F64) >= 1151
    ensures NearestEven(F32, F32.Inf(), F64.Mag(F64.Abs(b)))
  {
    LeadValues(F32);
    LeadValues(F64);
    FpFields(b, F64);
    hide Scale, FpExp, FpFrac, Format.Mag, Format.Pattern, Format.Inf, NearestEven, Pow2, Shr, Low, Shl;
    var sig := F64.Lead() + FpFrac(b, F64);
    ShiftRange(sig, 29);
    ShiftedFraction(sig, 29);
    NarrowValue(b, 29);
    OverflowAt(Shr(sig, 29), FpExp(b, F64) - 1023, Scale(sig as real, -29));
  }

  lemma OverflowAt(out: nat, exp: int, u: real)
    requires F32.Lead() <= out < 2 * F32.Lead() && exp >= 128 && out as real <= u
    ensures NearestEven(F32, F32.Inf(), Scale(u, exp - 23))
  {
    hide Scale, Format.Mag, Format.Inf, NearestEven, Pow2, Shl;
    var n := NormalPattern(F32, exp, out);
    MagMono(F32, F32.Inf(), n);
    ScaleMono(out as real, u, exp - 23);
    NearestOverflow(F32, Scale(u, exp - 23));
  }

  lemma PackFields(sign: nat, e32: nat, out: nat)
    requires sign <= 1 && e32 < 255 && 0x80_0000 <= out < 0x100_0000
    ensures Or(Or(Shl(sign, 31), Shl(e32, 23)), And(out, 0x7f_ffff))
        == Or(Shl(sign, 31), Shl(e32, 23) + (out - 0x80_0000))
  {
    LeadValues(F32);
    SmallPowers();
    hide Or, And, Shl, Shr, Low, Pow2;
    Pow2Add(8, 23);
    ShlMono(e32, Pow2(8), 23);
    OrDisjoint(sign, 31, Shl(e32, 23));
    OrDisjoint(sign, 31, Shl(e32, 23) + (out - 0x80_0000));
    EncodeNormal(F32, e32, out);
    AndMask(out, 23);
    ShlOne(23);
    SplitUnique(out, 23, 1, out - 0x80_0000);
    ShlShl(sign, 8, 23);
    ShlAdd(Shl(sign, 8), e32, 23);
    OrDisjoint(Shl(sign, 8) + e32, 23, out - 0x80_0000);
  }

  /** Signed magnitude r: what every return statement of `F64ToF32Bits` builds. */
  ghost predicate Narrowed(b: nat, r: nat) {
    && F32.Pattern(r) && F32.Sign(r) == F64.Sign(b)
    && (F64.IsNan(b) ==> r == Or(Shl(F64.Sign(b), 31), FpNan(F32)))
    && (F64.IsInf(b) ==> F32.IsInf(r))
    && (F64.Finite(b) ==> NearestEven(F32, F32.Abs(r), F64.Mag(F64.Abs(b))))
  }

  lemma NarrowedFrom(b: nat, m: nat)
    requires F64.Pattern(b) && F64.Finite(b) && NearestEven(F32, m, F64.Mag(F64.Abs(b)))
    ensures Narrowed(b, Or(Shl(FpSign(b, F64), 31), m))
  {
    hide Format.Mag, Format.Abs, Format.Sign, Format.Pattern, Shl, Or, FpSign;
    Kinds(b, F64);
    SignedPattern(F32, FpSign(b, F64), m);
  }

  lemma SpecialPatterns()
    ensures F32.Inf() == Shl(255, 23) == 0x7f80_0000 && FpNan(F32) == 0x7fc0_0000
    ensures F32.Inf() < 0x7fc0_0000 < F32.SignBit()
  {
    SinglePowers();
    hide *;
    ShlTimes(255, 23);
    NanValue(F32);
    InfBelowSign(F32);
    SingleConstants();
  }

  lemma SinglePowers()
    ensures Pow2(23) == 0x80_0000 && Pow2(22) == 0x40_0000
  {
    WideSizes();
    assert Pow2(23) == 2 * Pow2(22);
  }

  lemma SingleConstants()
    ensures F32.Inf() == Shl(255, 23) && F32.Lead() == Pow2(23) && F32.P() == 24
  {
    hide Shl, Pow2;
  }

  lemma NarrowedNan(b: nat)
    requires F64.Pattern(b) && F64.IsNan(b)
    ensures Narrowed(b, Or(Shl(FpSign(b, F64), 31), 0x7fc0_0000))
  {
    Kinds(b, F64);
    SpecialPatterns();
    var s := FpSign(b, F64);
    hide Format.Abs, Format.Sign, Format.Mag, Shl, Or, FpSign, FpNan, Format.Inf, Shr, Low, Pow2;
    ShlOne(31);
    OrDisjoint(s, 31, 0x7fc0_0000);
    SplitUnique(Shl(s, 31) + 0x7fc0_0000, 31, s, 0x7fc0_0000);
    SignAbs(Shl(s, 31) + 0x7fc0_0000, s, 0x7fc0_0000);
  }

  lemma SignAbs(v: nat, s: nat, m: nat)
    requires Shr(v, 31) == s <= 1 && Low(v, 31) == m && v == Shl(s, 31) + m
    ensures F32.Abs(v) == m && F32.Sign(v) == s && F32.Pattern(v)
  {
    hide Shr, Low, Shl, Pow2;
    ShlOne(31);
  }

  /** Narrows a double to single precision, for emitted constants. */
  method F64ToF32Bits(b: nat) returns (r: nat)
    requires F64.Pattern(b)
    ensures Narrowed(b, r)
  {
    hide Or, And, Shl, Shr, Low, Pow2, Narrowed, NearestEven, Format.Mag, Format.Abs, Format.Sign, Format.Pattern,
        Format.Inf;
    Kinds(b, F64);
    FpFields(b, F64);
    LeadValues(F64);
    SpecialPatterns();
    var sign: I64 := And(Shr(b, 63), 1);
    var exp: I64 := And(Shr(b, 52), 0x7ff);
    var man: I64 := And(b, 0xf_ffff_ffff_ffff);
    if exp == 0x7ff {
      if man == 0 {
        InfIsNarrowed(b);
        return Or(Shl(sign, 31), 0x7f80_0000);
      }
      NarrowedNan(b);
      return Or(Shl(sign, 31), 0x7fc0_0000);
    }
    OrZeroRight(Shl(sign, 31));
    if exp == 0 {
      NarrowTiny(b);
      NarrowedFrom(b, 0);
      return Shl(sign, 31);
    }
    r := NarrowFinite(b, sign, exp, man);
  }

  lemma InfIsNarrowed(b: nat)
    requires F64.Pattern(b) && F64.IsInf(b)
    ensures Narrowed(b, Or(Shl(FpSign(b, F64), 31), 0x7f80_0000))
  {
    Kinds(b, F64);
    SpecialPatterns();
    hide Format.Mag, Format.Abs, Format.Sign, Format.Pattern, Shl, Or, FpSign, Format.Inf;
    SignedPattern(F32, FpSign(b, F64), F32.Inf());
  }

  /** The rest of the narrowing: a normal double. */
  method NarrowFinite(b: nat, sign: I64, exp: I64, man: I64) returns (r: nat)
    requires F64.Pattern(b) && F64.Finite(b) && sign == FpSign(b, F64) && exp == FpExp(b, F64) && man == FpFrac(b, F64)
    requires 0 < exp < 0x7ff
    ensures Narrowed(b, r)
  {
    hide Or, And, Shl, Shr, Low, Pow2, FpSign, FpExp, FpFrac, Narrowed, NearestEven, Format.Mag, Format.Abs,
        Format.Sign, Format.Pattern, Format.Inf, Format.Finite;
    LeadValues(F64);
    FpFields(b, F64);
    FractionValue(b, F64);
    SpecialPatterns();
    var e32: I64 := exp - 1023 + 127;
    var sig: I64 := Or(man, 0x10_0000_0000_0000);
    OrZeroRight(Shl(sign, 31));
    if e32 < -23 {
      NarrowTiny(b);
      NarrowedFrom(b, 0);
      return Shl(sign, 31);
    }
    var shift: I64 := 29;
    if e32 <= 0 { shift := 30 - e32; }
    ShiftRange(sig, shift);
    PowerBound(shift);
    PowerBound(shift - 1);
    AndMask(sig, shift);
    ShlOne(shift);
    ShlOne(shift - 1);
    var out: I64 := Shr(sig, shift);
    var rem: I64 := And(sig, Pow2(shift) - 1);
    var half: I64 := Pow2(shift - 1);
    LowThree(out);
    ghost var out0 := out;
    var up := rem > half || (rem == half && And(out, 1) != 0);
    if up { out := out + 1; }
    if e32 <= 0 {
      NarrowSubnormal(b, shift, out0, up);
      NarrowedFrom(b, out);
      if out >= 0x80_0000 { return Or(Shl(sign, 31), 0x80_0000); }
      return Or(Shl(sign, 31), out);
    }
    if e32 >= 255 { NarrowOverflow(b); NarrowedFrom(b, F32.Inf()); }
    ghost var m := 0;
    if e32 < 255 { m := NarrowNormal(b, out0, up); NarrowedFrom(b, m); }
    ShlAdd(e32, 1, 23);
    ShlOne(23);
    LeadValues(F32);
    if out >= 0x100_0000 {
      out := 0x80_0000;
      e32 := e32 + 1;
    }
    if e32 >= 255 { return Or(Shl(sign, 31), 0x7f80_0000); }
    PackFields(sign, e32, out);
    r := Or(Or(Shl(sign, 31), Shl(e32, 23)), And(out, 0x7f_ffff));
  }

  // ----- conversions compared -----

  lemma PatternFromParts(f: Format, r: nat, s: nat)
    requires f.Sign(r) == f.Sign(s) && f.Abs(r) == f.Abs(s)
    ensures r == s
  {
    Split(r, f.Width() - 1);
    Split(s, f.Width() - 1);
  }

  /** What narrowing must produce is determined, except for which NaN. */
  lemma NarrowedUnique(b: nat, r: nat, s: nat)
    requires F64.Pattern(b) && !F64.IsNan(b) && Narrowed(b, r) && Narrowed(b, s)
    ensures r == s
  {
    hide Format.Mag, Format.Abs, Format.Sign, Format.Pattern, NearestEven, Format.Inf;
    Kinds(b, F64);
    if F64.Finite(b) { NearestUnique(F32, F32.Abs(r), F32.Abs(s), F64.Mag(F64.Abs(b))); }
    PatternFromParts(F32, r, s);
  }

  lemma CastIsNarrowed(b: nat, r: nat)
    requires F64.Pattern(b) && F32.Pattern(r) && F32.Sign(r) == F64.Sign(b) && !F64.IsNan(b)
    requires F64.IsInf(b) ==> F32.IsInf(r)
    requires F64.Finite(b) ==> NearestEven(F32, F32.Abs(r), F64.Mag(F64.Abs(b)))
    ensures Narrowed(b, r)
  {}

  lemma NanBits(b: nat, r: nat)
    requires F64.Pattern(b) && F64.IsNan(b) && Narrowed(b, r)
    ensures r == FpNan(F32) <==> F64.Sign(b) == 0
  {
    Kinds(b, F64);
    SpecialPatterns();
    NanIsNan(F32);
    hide Format.Abs, Format.Mag, FpNan, Pow2, Shl, Or, NearestEven;
    ShlOne(31);
    OrZero(FpNan(F32));
    OrDisjoint(F64.Sign(b), 31, FpNan(F32));
  }

  /** The evaluator and the code generator narrow a double to the same bits, correctly rounded,
      with one exception: they disagree exactly on NaNs whose sign bit is set. */
  method NarrowBothWays(b: nat) returns (evaluated: nat, emitted: nat)
    requires F64.Pattern(b)
    ensures !F64.IsNan(b) ==> Narrowed(b, evaluated) && Narrowed(b, emitted)
    ensures evaluated == emitted <==> !(F64.IsNan(b) && F64.Sign(b) == 1)
  {
    hide Format.Mag, Format.Abs, Format.Sign, Format.Pattern, NearestEven, Format.Inf, Narrowed, FpNan;
    Kinds(b, F64);
    evaluated := FpCast(b, F64, F32);
    emitted := F64ToF32Bits(b);
    if F64.IsNan(b) {
      NanBits(b, emitted);
    } else {
      CastIsNarrowed(b, evaluated);
      NarrowedUnique(b, evaluated, emitted);
    }
  }

  /** Every single-precision value is a double. */
  lemma WideMagnitude(m: nat) returns (w: nat)
    requires m < F32.Inf()
    ensures w < F64.Inf() && F64.Mag(w) == F32.Mag(m)
  {
    var raw: int, frac: nat := Shr(m, 23), Low(m, 23);
    var e: int := if raw == 0 then 0 - 149 else raw - 150;
    var s: nat := if raw == 0 then frac else F32.Lead() + frac;
    MagOf32(m);
    LeadValues(F32);
    LeadValues(F64);
    RawBelow(m);
    assert Pow2(53) == 2 * Pow2(52);
    hide Shr, Low, Shl, Pow2, Scale, Format.Mag, Format.Inf;
    w := Representable(F64, s, e);
    BelowTop(s, e, w);
  }

  lemma BelowTop(s: nat, e: int, w: nat)
    requires s <= 0x20_0000_0000_0000 && e <= 970 && F64.Mag(w) == Scale(s as real, e)
    ensures w < F64.Inf()
  {
    hide *;
    MagInf64();
    ScaleMono(s as real, 0x20_0000_0000_0000 as real, e);
    TopBit(e);
    ScaleOneMono(e + 53, 1023);
    ScaleStep(1.0, 1023);
    if w >= F64.Inf() { MagMono(F64, F64.Inf(), w); }
  }

  lemma RawBelow(m: nat)
    requires m < F32.Inf()
    ensures Shr(m, 23) < 255
  {
    hide Shr, Low, Shl, Pow2;
    Split(m, 23);
    if Shr(m, 23) >= 255 { ShlMono(255, Shr(m, 23), 23); }
  }

  lemma MagOf32(m: nat)
    ensures var raw, frac := Shr(m, 23), Low(m, 23);
      F32.Mag(m) == if raw == 0 then Scale(frac as real, -149) else Scale((F32.Lead() + frac) as real, raw - 150)
  {
    hide Shr, Low, Shl, Pow2, Scale, Format.Mag;
    Split(m, 23);
    Fields(F32, Shr(m, 23), Low(m, 23));
  }

  lemma MagInf64()
    ensures F64.Mag(F64.Inf()) == Scale(1.0, 1024)
  {
    hide Shr, Low, Shl, Pow2, Scale, Format.Mag;
    Fields(F64, 2047, 0);
    LeadValues(F64);
    TopBit(970);
    TopBit(971);
    ScaleStep(F64.Lead() as real, 971);
    HalfOf53();
    ScaleStep(F64.Lead() as real, 970);
  }

  lemma HalfOf53()
    ensures 2.0 * (0x10_0000_0000_0000 as real) == 0x20_0000_0000_0000 as real
  {}

  /** Widening is exact, and narrowing a widened number gives it back. */
  method WidenThenNarrow(v: nat) returns (w: nat, r: nat)
    requires F32.Pattern(v)
    ensures !F32.IsNan(v) ==> r == v
    ensures F32.Finite(v) ==> F64.Finite(w) && F64.Mag(F64.Abs(w)) == F32.Mag(F32.Abs(v)) && F64.Sign(w) == F32.Sign(v)
  {
    hide Format.Mag, Format.Abs, Format.Sign, Format.Pattern, NearestEven, Format.Inf, FpNan;
    Kinds(v, F32);
    w := FpCast(v, F32, F64);
    r := FpCast(w, F64, F32);
    if F32.Finite(v) {
      ghost var m := F32.Abs(v);
      ghost var wide := WideMagnitude(m);
      NearestExact(F64, wide, F32.Mag(m));
      NearestUnique(F64, wide, F64.Abs(w), F32.Mag(m));
      NearestExact(F32, m, F64.Mag(F64.Abs(w)));
      NearestUnique(F32, m, F32.Abs(r), F32.Mag(m));
    }
    if !F32.IsNan(v) { PatternFromParts(F32, r, v); }
  }
}
