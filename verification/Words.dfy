/** Little-endian numbers in byte sequences. */
module Words {
  import opened Bits
  import opened Lzss

  /** The k lowest bytes of n. */
  function Le(n: nat, k: nat): (r: seq<Byte>)
    ensures |r| == k
    decreases k
  {
    if k == 0 then [] else [n % 256] + Le(n / 256, k - 1)
  }

  function Num(s: seq<Byte>): nat {
    if s == [] then 0 else s[0] + 256 * Num(s[1..])
  }

  /** 256 to the k. */
  function Bound(k: nat): (r: nat)
    ensures r > 0
  {
    if k == 0 then 1 else 256 * Bound(k - 1)
  }

  lemma {:induction false} NumLe(n: nat, k: nat)
    requires n < Bound(k)
    ensures Num(Le(n, k)) == n
    decreases k
  {
    if k > 0 {
      assert Le(n, k)[1..] == Le(n / 256, k - 1);
      assert n / 256 < Bound(k - 1) by { assert n < 256 * Bound(k - 1); }
      NumLe(n / 256, k - 1);
    }
  }

  lemma Bounds()
    ensures Bound(2) == 0x1_0000 && Bound(4) == 0x1_0000_0000 && Bound(8) == 0x1_0000_0000_0000_0000
  {
    assert Bound(2) == 256 * 256 * Bound(0);
    assert Bound(4) == 256 * 256 * Bound(2);
    assert Bound(8) == 256 * 256 * 256 * 256 * Bound(4);
  }

  /** Bytes put together with shifts and ors, as the readers do. */
  function U16(s: seq<Byte>): nat
    requires |s| >= 2
  {
    Or(s[0], Shl(s[1], 8))
  }

  function U32(s: seq<Byte>): nat
    requires |s| >= 4
  {
    Or(Or(Or(s[0], Shl(s[1], 8)), Shl(s[2], 16)), Shl(s[3], 24))
  }

  function U64(s: seq<Byte>): nat
    requires |s| >= 8
  {
    Or(U32(s), Shl(U32(s[4..]), 32))
  }

  lemma ShlByte(x: nat, n: nat)
    requires n >= 8
    ensures Shl(x, n) == 256 * Shl(x, n - 8)
  {
    assert Shl(x, n) == 2 * Shl(x, n - 1) == 4 * Shl(x, n - 2) == 8 * Shl(x, n - 3) == 16 * Shl(x, n - 4);
    assert Shl(x, n - 4) == 2 * Shl(x, n - 5) == 4 * Shl(x, n - 6) == 8 * Shl(x, n - 7) == 16 * Shl(x, n - 8);
  }

  lemma ShlBytes(x: nat)
    ensures Shl(x, 8) == 0x100 * x && Shl(x, 16) == 0x1_0000 * x && Shl(x, 24) == 0x100_0000 * x
        && Shl(x, 32) == 0x1_0000_0000 * x
  {
    ShlByte(x, 8);
    ShlByte(x, 16);
    ShlByte(x, 24);
    ShlByte(x, 32);
  }

  lemma PowBytes()
    ensures Pow2(8) == 0x100 && Pow2(16) == 0x1_0000 && Pow2(24) == 0x100_0000 && Pow2(32) == 0x1_0000_0000
  {
    ShlBytes(1);
    ShlOne(8);
    ShlOne(16);
    ShlOne(24);
    ShlOne(32);
  }

  lemma U16IsNum(s: seq<Byte>)
    requires |s| >= 2
    ensures U16(s) == Num(s[..2])
  {
    PowBytes();
    ShlBytes(s[1]);
    OrDisjoint(s[1], 8, s[0]);
    assert s[..2] == [s[0], s[1]] && [s[0], s[1]][1..] == [s[1]] && [s[1]][1..] == [];
    assert Num([s[1]]) == s[1];
  }

  lemma Num4(a: Byte, b: Byte, c: Byte, d: Byte)
    ensures Num([a, b, c, d]) == a + 0x100 * b + 0x1_0000 * c + 0x100_0000 * d
  {
    assert [a, b, c, d][1..] == [b, c, d] && [b, c, d][1..] == [c, d] && [c, d][1..] == [d] && [d][1..] == [];
    assert Num([d]) == d;
    assert Num([c, d]) == c + 256 * d;
    assert Num([b, c, d]) == b + 256 * Num([c, d]);
  }

  lemma U32IsNum(s: seq<Byte>)
    requires |s| >= 4
    ensures U32(s) == Num(s[..4]) < 0x1_0000_0000
  {
    OrBytes(s[0], s[1], s[2], s[3]);
    Num4(s[0], s[1], s[2], s[3]);
    assert s[..4] == [s[0], s[1], s[2], s[3]];
  }

  lemma OrBytes(a: nat, b: nat, c: nat, d: nat)
    requires a < 256 && b < 256 && c < 256 && d < 256
    ensures Or(Or(Or(a, Shl(b, 8)), Shl(c, 16)), Shl(d, 24)) == a + 0x100 * b + 0x1_0000 * c
        + 0x100_0000 * d < 0x1_0000_0000
  {
    hide Or, Shl, Pow2;
    PowBytes();
    ShlBytes(b);
    ShlBytes(c);
    ShlBytes(d);
    OrDisjoint(b, 8, a);
    OrDisjoint(c, 16, a + 0x100 * b);
    OrDisjoint(d, 24, a + 0x100 * b + 0x1_0000 * c);
  }

  lemma {:induction false} NumJoin(a: seq<Byte>, b: seq<Byte>)
    ensures Num(a + b) == Num(a) + Bound(|a|) * Num(b)
    decreases a
  {
    if a == [] {
      assert a + b == b;
    } else {
      assert (a + b)[1..] == a[1..] + b;
      NumJoin(a[1..], b);
      Distribute(a[0], Num(a[1..]), Bound(|a| - 1), Num(b));
    }
  }

  lemma Distribute(x: int, y: int, p: int, z: int)
    ensures x + 256 * (y + p * z) == (x + 256 * y) + (256 * p) * z
  {}

  lemma U64IsNum(s: seq<Byte>)
    requires |s| >= 8
    ensures U64(s) == Num(s[..8]) < 0x1_0000_0000_0000_0000
  {
    U32IsNum(s);
    U32IsNum(s[4..]);
    PowBytes();
    ShlBytes(U32(s[4..]));
    OrDisjoint(U32(s[4..]), 32, U32(s));
    assert s[4..][..4] == s[4..8] && s[..4] + s[4..8] == s[..8];
    NumJoin(s[..4], s[4..8]);
    Bounds();
  }

  /** Reading back what was written, with anything behind it. */
  lemma ReadBack(n: nat, k: nat, rest: seq<Byte>)
    requires n < Bound(k)
    ensures k == 2 ==> U16(Le(n, k) + rest) == n
    ensures k == 4 ==> U32(Le(n, k) + rest) == n
    ensures k == 8 ==> U64(Le(n, k) + rest) == n
  {
    var s := Le(n, k) + rest;
    assert s[..k] == Le(n, k);
    NumLe(n, k);
    if k == 2 { U16IsNum(s); }
    if k == 4 { U32IsNum(s); }
    if k == 8 { U64IsNum(s); }
  }
}
