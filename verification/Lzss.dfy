/** The wire format shared by two compressors and three decoders: one flag byte for eight items,
    lowest bit first; a set bit is a literal byte, a clear bit a two-byte back reference. */
module Lzss {
  import opened Bits

  type Byte = x: int | 0 <= x < 256

  datatype Item = Lit(b: Byte) | Copy(dist: nat, len: nat)

  // ----- what items mean -----

  /** Copies byte by byte, so a reference may overlap what it produces. */
  function CopyOut(out: seq<Byte>, dist: nat, len: nat): (r: seq<Byte>)
    requires 1 <= dist <= |out|
    ensures |r| == |out| + len
    decreases len
  {
    if len == 0 then out else CopyOut(out + [out[|out| - dist]], dist, len - 1)
  }

  predicate ItemOk(out: seq<Byte>, it: Item) {
    it.Copy? ==> 1 <= it.dist <= 4096 && it.dist <= |out| && 3 <= it.len <= 18
  }

  function Apply(out: seq<Byte>, it: Item): (r: seq<Byte>)
    requires ItemOk(out, it)
    ensures |r| > |out|
  {
    match it case Lit(b) => out + [b] case Copy(d, l) => CopyOut(out, d, l)
  }

  predicate Valid(out: seq<Byte>, its: seq<Item>)
    decreases |its|
  {
    its != [] ==> ItemOk(out, its[0]) && Valid(Apply(out, its[0]), its[1..])
  }

  function Expand(out: seq<Byte>, its: seq<Item>): (r: seq<Byte>)
    requires Valid(out, its)
    ensures |r| >= |out| + |its|
    decreases |its|
  {
    if its == [] then out else Expand(Apply(out, its[0]), its[1..])
  }

  lemma {:induction false} ExpandSnoc(out: seq<Byte>, its: seq<Item>, it: Item)
    requires Valid(out, its) && ItemOk(Expand(out, its), it)
    ensures Valid(out, its + [it]) && Expand(out, its + [it]) == Apply(Expand(out, its), it)
    decreases |its|
  {
    if its == [] {
      assert its + [it] == [it] && [it][1..] == [];
    } else {
      assert (its + [it])[0] == its[0] && (its + [it])[1..] == its[1..] + [it];
      ExpandSnoc(Apply(out, its[0]), its[1..], it);
    }
  }

  lemma {:induction false} ExpandJoin(out: seq<Byte>, a: seq<Item>, b: seq<Item>)
    requires Valid(out, a + b)
    ensures Valid(out, a) && Valid(Expand(out, a), b) && Expand(out, a + b) == Expand(Expand(out, a), b)
    decreases |a|
  {
    if a == [] {
      assert a + b == b;
    } else {
      assert (a + b)[0] == a[0] && (a + b)[1..] == a[1..] + b;
      ExpandJoin(Apply(out, a[0]), a[1..], b);
    }
  }

  /** The len bytes at i are those dist earlier. */
  predicate Repeats(data: seq<Byte>, i: nat, dist: nat, len: nat)
    requires dist <= i && i + len <= |data|
  {
    forall j :: i <= j < i + len ==> data[j] == data[j - dist]
  }

  /** A reference to an equal stretch reproduces the data, overlapping or not. */
  lemma {:induction false} CopyMatch(data: seq<Byte>, i: nat, dist: nat, len: nat)
    requires 1 <= dist <= i && i + len <= |data| && Repeats(data, i, dist, len)
    ensures CopyOut(data[..i], dist, len) == data[..i + len]
    decreases len
  {
    if len > 0 {
      assert data[i] == data[i - dist];
      assert data[..i] + [data[..i][i - dist]] == data[..i + 1];
      CopyMatch(data, i + 1, dist, len - 1);
    }
  }

  // ----- bytes -----

  /** The distance, less one, above four bits of length, less three. */
  function Code(dist: nat, len: nat): nat
    requires 1 <= dist && 3 <= len
  {
    Or(Shl(dist - 1, 4), len - 3)
  }

  function HighByte(code: nat): nat { And(Shr(code, 8), 255) }

  function LowByte(code: nat): nat { And(code, 255) }

  function CodeDist(code: nat): nat { Shr(code, 4) + 1 }

  function CodeLen(code: nat): nat { And(code, 15) + 3 }

  function Joined(hi: nat, lo: nat): nat { Or(Shl(hi, 8), lo) }

  lemma Powers()
    ensures Pow2(4) == 16 && Pow2(8) == 256 && Pow2(12) == 4096
  {
    assert Pow2(4) == 2 * 2 * 2 * 2 * Pow2(0);
    assert Pow2(8) == 2 * 2 * 2 * 2 * Pow2(4);
    assert Pow2(12) == 2 * 2 * 2 * 2 * Pow2(8);
  }

  lemma ShlMul(x: nat)
    ensures Shl(x, 4) == 16 * x && Shl(x, 8) == 256 * x
  {
    assert Shl(x, 4) == 2 * Shl(x, 3) == 4 * Shl(x, 2) == 8 * Shl(x, 1) == 16 * Shl(x, 0);
    assert Shl(x, 8) == 2 * Shl(x, 7) == 4 * Shl(x, 6) == 8 * Shl(x, 5) == 16 * Shl(x, 4);
  }

  /** The code carries both numbers. */
  lemma CodeNumbers(dist: nat, len: nat)
    requires 1 <= dist <= 4096 && 3 <= len <= 18
    ensures var c := Code(dist, len); c < 0x1_0000 && CodeDist(c) == dist && CodeLen(c) == len
  {
    Powers();
    ShlMul(dist - 1);
    OrDisjoint(dist - 1, 4, len - 3);
    SplitUnique(Code(dist, len), 4, dist - 1, len - 3);
    AndMask(Code(dist, len), 4);
  }

  /** Two bytes carry the code. */
  lemma CodeBytes(c: nat)
    requires c < 0x1_0000
    ensures HighByte(c) < 256 && LowByte(c) < 256 && Joined(HighByte(c), LowByte(c)) == c
  {
    var h := Shr(c, 8);
    Powers();
    Split(c, 8);
    ShlMul(h);
    ShlOne(8);
    SplitUnique(h, 8, 0, h);
    AndMask(c, 8);
    AndMask(h, 8);
    OrDisjoint(h, 8, Low(c, 8));
  }

  lemma CodeRoundTrip(dist: nat, len: nat)
    requires 1 <= dist <= 4096 && 3 <= len <= 18
    ensures var c := Code(dist, len);
      && HighByte(c) < 256 && LowByte(c) < 256
      && Joined(HighByte(c), LowByte(c)) == c && CodeDist(c) == dist && CodeLen(c) == len
  {
    CodeNumbers(dist, len);
    CodeBytes(Code(dist, len));
  }

  predicate ItemFits(it: Item) { it.Copy? ==> 1 <= it.dist <= 4096 && 3 <= it.len <= 18 }

  function ItemBytes(it: Item): seq<Byte>
    requires ItemFits(it)
  {
    match it
    case Lit(b) => [b]
    case Copy(d, l) => CodeRoundTrip(d, l); [HighByte(Code(d, l)), LowByte(Code(d, l))]
  }

  /** On the wire: sixteen times the distance less one, plus the length less three, high byte first. */
  lemma CopyBytes(dist: nat, len: nat)
    requires 1 <= dist <= 4096 && 3 <= len <= 18
    ensures var c := 16 * (dist - 1) + (len - 3); ItemBytes(Copy(dist, len)) == [c / 256, c % 256]
  {
    hide And, Or, Shl, Shr, Low, HighByte, LowByte;
    CodeRoundTrip(dist, len);
    Powers();
    ShlMul(dist - 1);
    OrDisjoint(dist - 1, 4, len - 3);
    HighLow(Code(dist, len));
  }

  lemma HighLow(c: nat)
    requires c < 0x1_0000
    ensures HighByte(c) == c / 256 && LowByte(c) == c % 256
  {
    hide And, Low, Shr, Shl, Pow2;
    Powers();
    Split(c, 8);
    ShlMul(Shr(c, 8));
    AndMask(c, 8);
    AndMask(Shr(c, 8), 8);
    ShlOne(8);
    SplitUnique(Shr(c, 8), 8, 0, Shr(c, 8));
  }

  predicate Fits(its: seq<Item>) { forall i :: 0 <= i < |its| ==> ItemFits(its[i]) }

  function Bodies(its: seq<Item>): (r: seq<Byte>)
    requires Fits(its)
    decreases |its|
  {
    if its == [] then [] else ItemBytes(its[0]) + Bodies(its[1..])
  }

  /** Bit b is set when item b is a literal. */
  function Flags(g: seq<Item>): (f: nat)
    ensures f < Pow2(|g|)
    decreases |g|
  {
    if g == [] then 0 else (if g[0].Lit? then 1 else 0) + 2 * Flags(g[1..])
  }

  lemma {:induction false} FlagBit(g: seq<Item>, b: nat)
    requires b < |g|
    ensures And(Flags(g), Pow2(b)) != 0 <==> g[b].Lit?
    decreases b
  {
    FlagShift(g, b);
    AndBit(Flags(g), b);
  }

  lemma {:induction false} FlagShift(g: seq<Item>, b: nat)
    requires b < |g|
    ensures Shr(Flags(g), b) % 2 == 1 <==> g[b].Lit?
    decreases b
  {
    if b > 0 {
      assert Flags(g) / 2 == Flags(g[1..]);
      FlagShift(g[1..], b - 1);
    }
  }

  lemma {:induction false} FlagsSnoc(g: seq<Item>, it: Item)
    ensures Flags(g + [it]) == Flags(g) + (if it.Lit? then Pow2(|g|) else 0)
    decreases |g|
  {
    if g == [] {
      assert g + [it] == [it] && [it][1..] == [];
    } else {
      assert (g + [it])[0] == g[0] && (g + [it])[1..] == g[1..] + [it];
      FlagsSnoc(g[1..], it);
    }
  }

  /** Setting a fresh bit. */
  lemma FlagsOr(g: seq<Item>, it: Item)
    requires it.Lit?
    ensures Or(Flags(g), Pow2(|g|)) == Flags(g + [it])
  {
    FlagsSnoc(g, it);
    ShlOne(|g|);
    OrDisjoint(1, |g|, Flags(g));
  }

  function Group(g: seq<Item>): (r: seq<Byte>)
    requires Fits(g) && |g| <= 8
  {
    Powers();
    Pow2Mono(|g|, 8);
    [Flags(g)] + Bodies(g)
  }

  function Wire(its: seq<Item>): seq<Byte>
    requires Fits(its)
    decreases |its|
  {
    if its == [] then [] else if |its| <= 8 then Group(its) else Group(its[..8]) + Wire(its[8..])
  }

  lemma {:induction false} BodiesSnoc(its: seq<Item>, it: Item)
    requires Fits(its + [it])
    ensures Fits(its) && ItemFits(it) && Bodies(its + [it]) == Bodies(its) + ItemBytes(it)
    decreases |its|
  {
    assert (its + [it])[|its|] == it;
    assert forall i :: 0 <= i < |its| ==> (its + [it])[i] == its[i];
    if its == [] {
      assert its + [it] == [it] && [it][1..] == [] && Bodies([]) == [];
    } else {
      assert (its + [it])[0] == its[0] && (its + [it])[1..] == its[1..] + [it];
      BodiesSnoc(its[1..], it);
    }
  }

  lemma Eights(n: nat)
    requires n % 8 == 0 && n > 0
    ensures n >= 8 && (n - 8) % 8 == 0
  {}

  /** Whole groups of eight, then one more. */
  lemma {:induction false} WireJoin(a: seq<Item>, g: seq<Item>)
    requires |a| % 8 == 0 && 0 < |g| <= 8 && Fits(a + g)
    ensures Fits(a) && Fits(g) && Wire(a + g) == Wire(a) + Group(g)
    decreases |a|
  {
    hide Group;
    FitsSplit(a, g);
    if a == [] {
      assert a + g == g;
    } else {
      Eights(|a|);
      var rest := a[8..];
      assert (a + g)[..8] == a[..8] && (a + g)[8..] == rest + g;
      FitsSplit(a[..8], rest + g);
      assert a == a[..8] + rest;
      FitsSplit(a[..8], rest);
      WireJoin(rest, g);
      WireStep(a + g);
      if |a| > 8 { WireStep(a); } else { assert a[..8] == a && rest == [] && rest + g == g; }
    }
  }

  lemma WireStep(its: seq<Item>)
    requires Fits(its) && |its| > 8
    ensures Fits(its[..8]) && Fits(its[8..]) && Wire(its) == Group(its[..8]) + Wire(its[8..])
  {}

  lemma FitsSplit(a: seq<Item>, g: seq<Item>)
    requires Fits(a + g)
    ensures Fits(a) && Fits(g)
  {
    assert forall i :: 0 <= i < |g| ==> (a + g)[|a| + i] == g[i];
    assert forall i :: 0 <= i < |a| ==> (a + g)[i] == a[i];
  }

  // ----- decoding -----

  datatype Outcome = Unpacked(data: seq<Byte>) | Corrupt

  /** Decodes until `total` bytes are out; every read and every reference is checked. */
  function Unpack(src: seq<Byte>, si: nat, out: seq<Byte>, total: nat): (r: Outcome)
    requires si <= |src| && |out| <= total
    ensures r.Unpacked? ==> |r.data| == total
    decreases |src| - si, 0
  {
    if |out| == total then Unpacked(out)
    else if si == |src| then Corrupt
    else Items(src, si + 1, src[si], 0, out, total)
  }

  function Items(src: seq<Byte>, si: nat, flags: Byte, bit: nat, out: seq<Byte>, total: nat): (r: Outcome)
    requires si <= |src| && bit <= 8 && |out| <= total
    ensures r.Unpacked? ==> |r.data| == total
    decreases |src| - si, 9 - bit
  {
    if bit == 8 || |out| == total then Unpack(src, si, out, total)
    else if And(flags, Pow2(bit)) != 0 then
      if si == |src| then Corrupt else Items(src, si + 1, flags, bit + 1, out + [src[si]], total)
    else if si + 1 >= |src| then Corrupt
    else
      var code := Joined(src[si], src[si + 1]);
      if CodeDist(code) > |out| || |out| + CodeLen(code) > total then Corrupt
      else Items(src, si + 2, flags, bit + 1, CopyOut(out, CodeDist(code), CodeLen(code)), total)
  }

  /** The bytes c lie at si. */
  ghost predicate At(src: seq<Byte>, si: nat, c: seq<Byte>) { si + |c| <= |src| && src[si..si + |c|] == c }

  lemma AtSplit(src: seq<Byte>, si: nat, a: seq<Byte>, b: seq<Byte>)
    requires At(src, si, a + b)
    ensures At(src, si, a) && At(src, si + |a|, b)
  {
    assert src[si..si + |a|] == src[si..si + |a + b|][..|a|] == a;
    assert src[si + |a|..si + |a| + |b|] == src[si..si + |a + b|][|a|..] == b;
  }

  /** Decoding the rest of a group. */
  lemma {:induction false} GroupDecodes(src: seq<Byte>, si: nat, g: seq<Item>, bit: nat, out: seq<Byte>, total: nat)
    requires |g| <= 8 && bit <= |g| && Fits(g) && Flags(g) < 256 && At(src, si, Bodies(g[bit..]))
        && Valid(out, g[bit..]) && |Expand(out, g[bit..])| <= total
    ensures var si' := si + |Bodies(g[bit..])|;
      Items(src, si, Flags(g), bit, out, total) == Items(src, si', Flags(g), |g|, Expand(out, g[bit..]), total)
    decreases |g| - bit
  {
    hide Items, Flags, ItemBytes, Apply, At;
    if bit < |g| {
      var it, rest := g[bit], g[bit + 1..];
      assert g[bit..][0] == it && g[bit..][1..] == rest;
      var out1 := Apply(out, it);
      AtSplit(src, si, ItemBytes(it), Bodies(rest));
      FlagBit(g, bit);
      AtLength(src, si, ItemBytes(it));
      ItemDecodes(src, si, it, Flags(g), bit, out, total);
      GroupDecodes(src, si + |ItemBytes(it)|, g, bit + 1, out1, total);
    } else {
      AtLength(src, si, Bodies(g[bit..]));
    }
  }

  lemma AtLength(src: seq<Byte>, si: nat, c: seq<Byte>)
    requires At(src, si, c)
    ensures si + |c| <= |src|
  {}

  lemma ItemDecodes(src: seq<Byte>, si: nat, it: Item, flags: Byte, bit: nat, out: seq<Byte>, total: nat)
    requires bit < 8 && ItemOk(out, it) && At(src, si, ItemBytes(it)) && (And(flags, Pow2(bit)) != 0 <==> it.Lit?)
        && |Apply(out, it)| <= total
    ensures Items(src, si, flags, bit, out, total)
        == Items(src, si + |ItemBytes(it)|, flags, bit + 1, Apply(out, it), total)
  {
    hide And, Pow2, Shr, Shl, Or;
    if it.Lit? {
      assert src[si] == src[si..si + 1][0];
    } else {
      CodeRoundTrip(it.dist, it.len);
      assert src[si] == src[si..si + 2][0] && src[si + 1] == src[si..si + 2][1];
    }
  }

  /** A group of fewer than eight items ends the stream. */
  lemma GroupEnds(src: seq<Byte>, si: nat, flags: Byte, n: nat, out: seq<Byte>, total: nat)
    requires si <= |src| && n <= 8 && |out| <= total && (n == 8 || |out| == total)
    ensures Items(src, si, flags, n, out, total) == Unpack(src, si, out, total)
  {}

  lemma UnpackGroup(src: seq<Byte>, si: nat, g: seq<Item>, out: seq<Byte>, total: nat)
    requires g != [] && |g| <= 8 && Fits(g) && At(src, si, Group(g)) && Valid(out, g) && |Expand(out, g)| <= total
        && (|g| == 8 || |Expand(out, g)| == total)
    ensures si + |Group(g)| <= |src| && Unpack(src, si, out, total)
        == Unpack(src, si + |Group(g)|, Expand(out, g), total)
  {
    hide Items, Flags, Expand, Bodies;
    Powers();
    Pow2Mono(|g|, 8);
    AtSplit(src, si, [Flags(g)], Bodies(g));
    assert src[si] == src[si..si + 1][0];
    assert g[0..] == g;
    GroupDecodes(src, si + 1, g, 0, out, total);
    GroupEnds(src, si + 1 + |Bodies(g)|, Flags(g), |g|, Expand(out, g), total);
  }

  lemma {:induction false} WireDecodes(src: seq<Byte>, si: nat, its: seq<Item>, out: seq<Byte>, total: nat)
    requires Fits(its) && At(src, si, Wire(its)) && Valid(out, its) && |Expand(out, its)| == total
    ensures Unpack(src, si, out, total) == Unpacked(Expand(out, its))
    decreases |its|
  {
    hide Items, Group, Expand, At;
    AtLength(src, si, Wire(its));
    if its == [] {
      assert Expand(out, its) == out by { ExpandNothing(out); }
    } else {
      var g := if |its| <= 8 then its else its[..8];
      var rest := its[|g|..];
      assert its == g + rest;
      ExpandJoin(out, g, rest);
      if |its| <= 8 { assert rest == [] && Wire(rest) == []; ExpandNothing(Expand(out, g)); }
      assert Wire(its) == Group(g) + Wire(rest);
      AtSplit(src, si, Group(g), Wire(rest));
      UnpackGroup(src, si, g, out, total);
      WireDecodes(src, si + |Group(g)|, rest, Expand(out, g), total);
    }
  }

  lemma ExpandNothing(out: seq<Byte>)
    ensures Expand(out, []) == out
  {}

  /** Whatever the choice of items, the stream decodes to what they mean. */
  lemma RoundTrip(its: seq<Item>)
    requires Valid([], its) && Fits(its)
    ensures Unpack(Wire(its), 0, [], |Expand([], its)|) == Unpacked(Expand([], its))
  {
    assert Wire(its)[0..0 + |Wire(its)|] == Wire(its);
    WireDecodes(Wire(its), 0, its, [], |Expand([], its)|);
  }

  // ----- size -----

  lemma {:induction false} BodiesSize(out: seq<Byte>, its: seq<Item>)
    requires Valid(out, its) && Fits(its)
    ensures |Bodies(its)| + |out| <= |Expand(out, its)|
    decreases |its|
  {
    if its != [] { BodiesSize(Apply(out, its[0]), its[1..]); }
  }

  lemma {:induction false} WireSize(its: seq<Item>)
    requires Fits(its)
    ensures |Wire(its)| == |Bodies(its)| + (|its| + 7) / 8
    decreases |its|
  {
    if |its| > 8 {
      WireSize(its[8..]);
      assert its == its[..8] + its[8..];
      BodiesJoin(its[..8], its[8..]);
    }
  }

  lemma {:induction false} BodiesJoin(a: seq<Item>, b: seq<Item>)
    requires Fits(a) && Fits(b)
    ensures Fits(a + b) && Bodies(a + b) == Bodies(a) + Bodies(b)
    decreases |a|
  {
    hide ItemBytes, ItemFits;
    if a == [] {
      assert a + b == b;
    } else {
      assert (a + b)[0] == a[0] && (a + b)[1..] == a[1..] + b;
      BodiesJoin(a[1..], b);
    }
  }

  /** At worst one flag byte for every eight literals. */
  lemma PackedSize(its: seq<Item>)
    requires Valid([], its) && Fits(its)
    ensures |Wire(its)| <= |Expand([], its)| + (|Expand([], its)| + 7) / 8
  {
    WireSize(its);
    BodiesSize([], its);
  }
}
