/** Powers of two, shifts and the bitwise operators on natural numbers, and scaling of reals by
    powers of two. Everything is defined one binary digit at a time. */
module Bits {

  function Pow2(n: nat): (r: nat)
    ensures r > 0
  {
    if n == 0 then 1 else 2 * Pow2(n - 1)
  }

  /** `x << n`, without a word size. */
  function Shl(x: nat, n: nat): (r: nat)
    ensures r >= x
  {
    if n == 0 then x else 2 * Shl(x, n - 1)
  }

  /** `x >> n`. */
  function Shr(x: nat, n: nat): (r: nat)
    ensures r <= x
  {
    if n == 0 then x else Shr(x / 2, n - 1)
  }

  /** The low n bits of x. */
  function Low(x: nat, n: nat): (r: nat)
    ensures r < Pow2(n)
  {
    if n == 0 then 0 else 2 * Low(x / 2, n - 1) + x % 2
  }

  /** Bitwise `&`. */
  function And(x: nat, y: nat): nat
  {
    if x == 0 || y == 0 then 0
    else 2 * And(x / 2, y / 2) + (if x % 2 == 1 && y % 2 == 1 then 1 else 0)
  }

  /** Bitwise `|`. */
  function Or(x: nat, y: nat): nat
    decreases x + y
  {
    if x == 0 then y
    else if y == 0 then x
    else 2 * Or(x / 2, y / 2) + (if x % 2 == 1 || y % 2 == 1 then 1 else 0)
  }

  function Xor(x: nat, y: nat): nat
    decreases x + y
  {
    if x == 0 then y else if y == 0 then x
    else 2 * Xor(x / 2, y / 2) + (if x % 2 != y % 2 then 1 else 0)
  }

  /** Each operator works digit by digit. */
  lemma {:induction false} Digits(x: nat, y: nat, k: nat)
    ensures Shr(And(x, y), k) % 2 == if Shr(x, k) % 2 == 1 && Shr(y, k) % 2 == 1 then 1 else 0
    ensures Shr(Or(x, y), k) % 2 == if Shr(x, k) % 2 == 1 || Shr(y, k) % 2 == 1 then 1 else 0
    ensures Shr(Xor(x, y), k) % 2 == if Shr(x, k) % 2 != Shr(y, k) % 2 then 1 else 0
    decreases k
  {
    Halves(x, y);
    ZeroDigits(k);
    if k > 0 { Digits(x / 2, y / 2, k - 1); }
  }

  lemma {:induction false} ZeroDigits(k: nat)
    ensures Shr(0, k) == 0
  {
    if k > 0 { ZeroDigits(k - 1); }
  }

  lemma Halves(x: nat, y: nat)
    ensures And(x, y) / 2 == And(x / 2, y / 2) && Or(x, y) / 2 == Or(x / 2, y / 2) && Xor(x, y) / 2 == Xor(x / 2, y / 2)
    ensures And(x, y) % 2 == if x % 2 == 1 && y % 2 == 1 then 1 else 0
    ensures Or(x, y) % 2 == if x % 2 == 1 || y % 2 == 1 then 1 else 0
    ensures Xor(x, y) % 2 == if x % 2 != y % 2 then 1 else 0
  {}

  lemma {:induction false} ShlAdd(x: nat, y: nat, n: nat)
    ensures Shl(x + y, n) == Shl(x, n) + Shl(y, n)
  {
    if n > 0 { ShlAdd(x, y, n - 1); }
  }

  lemma {:induction false} ShlOne(n: nat)
    ensures Shl(1, n) == Pow2(n)
    ensures Shl(0, n) == 0
  {
    if n > 0 { ShlOne(n - 1); }
  }

  lemma EvenShl(x: nat, n: nat)
    requires n > 0
    ensures Shl(x, n) % 2 == 0 && Pow2(n) % 2 == 0
  {
    EvenDouble(Shl(x, n), Shl(x, n - 1));
    EvenDouble(Pow2(n), Pow2(n - 1));
  }

  lemma EvenDouble(x: int, y: int)
    requires x == 2 * y
    ensures x % 2 == 0
  {}

  lemma {:induction false} ShlShl(x: nat, a: nat, b: nat)
    ensures Shl(Shl(x, a), b) == Shl(x, a + b)
  {
    if b > 0 { ShlShl(x, a, b - 1); }
  }

  lemma {:induction false} ShlMono(x: nat, y: nat, n: nat)
    requires x <= y
    ensures Shl(x, n) <= Shl(y, n)
    ensures x < y ==> Shl(x, n) + Pow2(n) <= Shl(y, n)
  {
    ShlAdd(x, y - x, n);
    if x < y {
      ShlAdd(1, y - x - 1, n);
      ShlOne(n);
    }
  }

  lemma {:induction false} ShlTimes(x: nat, n: nat)
    ensures Shl(x, n) == x * Pow2(n)
    decreases n
  {
    if n > 0 {
      ShlTimes(x, n - 1);
      Doubled(x, Pow2(n - 1));
    }
  }

  lemma Doubled(x: nat, h: nat)
    ensures x * (2 * h) == 2 * (x * h)
  {}

  lemma {:induction false} Pow2Add(a: nat, b: nat)
    ensures Shl(Pow2(a), b) == Pow2(a + b)
  {
    if b > 0 { Pow2Add(a, b - 1); }
  }

  lemma {:induction false} Pow2Mono(a: nat, b: nat)
    requires a <= b
    ensures Pow2(a) <= Pow2(b)
    ensures a < b ==> 2 * Pow2(a) <= Pow2(b)
    decreases b
  {
    if a < b { Pow2Mono(a, b - 1); }
  }

  /** x is its high part followed by its low part. */
  lemma {:induction false} Split(x: nat, n: nat)
    ensures x == Shl(Shr(x, n), n) + Low(x, n)
  {
    if n > 0 { Split(x / 2, n - 1); }
  }

  /** And it is so in one way only. */
  lemma {:induction false} SplitUnique(x: nat, n: nat, q: nat, r: nat)
    requires r < Pow2(n) && x == Shl(q, n) + r
    ensures Shr(x, n) == q && Low(x, n) == r
  {
    if n > 0 { SplitUnique(x / 2, n - 1, q, r / 2); }
  }

  lemma {:induction false} ShrShr(x: nat, a: nat, b: nat)
    ensures Shr(Shr(x, a), b) == Shr(x, a + b)
  {
    if a > 0 { ShrShr(x / 2, a - 1, b); }
  }

  lemma {:induction false} ShrMono(x: nat, y: nat, n: nat)
    requires x <= y
    ensures Shr(x, n) <= Shr(y, n)
  {
    if n > 0 { ShrMono(x / 2, y / 2, n - 1); }
  }

  /** Masking with 2^n - 1 keeps the low n bits. */
  lemma {:induction false} AndMask(x: nat, n: nat)
    ensures And(x, Pow2(n) - 1) == Low(x, n)
  {
    if n > 0 {
      AndMask(x / 2, n - 1);
      var h := Pow2(n - 1);
      AndDouble(x, h - 1);
    }
  }

  lemma AndDouble(x: nat, h: nat)
    ensures And(x, 2 * h + 1) == 2 * And(x / 2, h) + x % 2
  {
    assert (2 * h + 1) / 2 == h && (2 * h + 1) % 2 == 1;
  }

  /** Or-ing values that occupy disjoint digits adds them. */
  lemma {:induction false} OrDisjoint(x: nat, n: nat, y: nat)
    requires y < Pow2(n)
    ensures Or(Shl(x, n), y) == Shl(x, n) + y
    ensures Or(y, Shl(x, n)) == Shl(x, n) + y
  {
    if n > 0 { OrDisjoint(x, n - 1, y / 2); }
  }

  /** Testing the single bit k. */
  lemma {:induction false} AndBit(x: nat, k: nat)
    ensures And(x, Pow2(k)) != 0 <==> Shr(x, k) % 2 == 1
  {
    if k == 0 {
      assert And(x / 2, 0) == 0;
    } else if x > 0 {
      AndBit(x / 2, k - 1);
    } else {
      AndBit(0, k - 1);
    }
  }

  /** `x | 1`. */
  lemma OrOne(x: nat)
    ensures Or(x, 1) == x - x % 2 + 1
  {
    if x > 1 { assert Or(x / 2, 0) == x / 2; }
  }

  /** x * 2^e for any integer exponent. */
  function Scale(x: real, e: int): real
    decreases if e < 0 then -e else e
  {
    if e == 0 then x
    else if e > 0 then 2.0 * Scale(x, e - 1)
    else Scale(x, e + 1) / 2.0
  }

  lemma {:induction false} ScaleStep(x: real, e: int)
    ensures Scale(x, e + 1) == 2.0 * Scale(x, e)
    ensures Scale(2.0 * x, e) == Scale(x, e + 1)
    decreases if e < 0 then -e else e
  {
    if e > 0 { ScaleStep(x, e - 1); }
    else if e < 0 { ScaleStep(x, e + 1); }
  }

  lemma {:induction false} ScaleAdd(x: real, y: real, e: int)
    ensures Scale(x + y, e) == Scale(x, e) + Scale(y, e)
    ensures Scale(x - y, e) == Scale(x, e) - Scale(y, e)
    decreases if e < 0 then -e else e
  {
    if e > 0 { ScaleAdd(x, y, e - 1); }
    else if e < 0 { ScaleAdd(x, y, e + 1); }
  }

  lemma {:induction false} ScaleMono(x: real, y: real, e: int)
    ensures x <= y ==> Scale(x, e) <= Scale(y, e)
    ensures x < y ==> Scale(x, e) < Scale(y, e)
    ensures Scale(0.0, e) == 0.0
    decreases if e < 0 then -e else e
  {
    if e > 0 { ScaleMono(x, y, e - 1); }
    else if e < 0 { ScaleMono(x, y, e + 1); }
  }

  lemma {:induction false} ScaleScale(x: real, a: int, b: int)
    ensures Scale(Scale(x, a), b) == Scale(x, a + b)
    decreases if b < 0 then -b else b
  {
    if b > 0 { ScaleScale(x, a, b - 1); ScaleStep(x, a + b - 1); }
    else if b < 0 { ScaleScale(x, a, b + 1); ScaleStep(x, a + b); }
  }

  lemma {:induction false} ScaleShl(x: nat, n: nat)
    ensures Scale(x as real, n) == Shl(x, n) as real
  {
    if n > 0 { ScaleShl(x, n - 1); }
  }

  lemma {:induction false} ScaleMul(x: real, y: real, e: int)
    ensures Scale(x, e) * y == Scale(x * y, e)
    decreases if e < 0 then -e else e
  {
    if e > 0 {
      ScaleMul(x, y, e - 1);
      MulAssoc(2.0, Scale(x, e - 1), y);
    } else if e < 0 {
      ScaleMul(x, y, e + 1);
      MulAssoc(0.5, Scale(x, e + 1), y);
    }
  }

  lemma MulAssoc(c: real, x: real, y: real)
    ensures (c * x) * y == c * (x * y)
  {}
}
