/** The two compressors: the exhaustive one that bakes the standard library, and the hash-chain one
    that packs absorbed files. */
module Packers {
  import opened Bits
  import opened Lzss

  // ----- matches -----

  /** Position p lies in the window before i. */
  predicate InWindow(p: int, i: nat) { 0 <= p < i && i - p <= 4096 }

  function Limit(data: seq<Byte>, i: nat): (r: nat)
    requires i <= |data|
    ensures r <= 18 && i + r <= |data|
  {
    if |data| - i < 18 then |data| - i else 18
  }

  /** The length of the match between p and i, at most 18, given that k bytes agree. */
  function MatchFrom(data: seq<Byte>, p: nat, i: nat, k: nat): (r: nat)
    requires p < i <= |data| && k <= Limit(data, i)
    ensures k <= r <= Limit(data, i)
    decreases Limit(data, i) - k
  {
    if k < Limit(data, i) && data[p + k] == data[i + k] then MatchFrom(data, p, i, k + 1) else k
  }

  function MatchLen(data: seq<Byte>, p: nat, i: nat): (r: nat)
    requires p < i <= |data|
    ensures r <= Limit(data, i)
  {
    MatchFrom(data, p, i, 0)
  }

  lemma {:induction false} MatchFromSpec(data: seq<Byte>, p: nat, i: nat, k: nat)
    requires p < i <= |data| && k <= Limit(data, i) && Repeats(data, i, i - p, k)
    ensures var r := MatchFrom(data, p, i, k);
      Repeats(data, i, i - p, r) && (r < Limit(data, i) ==> data[p + r] != data[i + r])
    decreases Limit(data, i) - k
  {
    if k < Limit(data, i) && data[p + k] == data[i + k] { MatchFromSpec(data, p, i, k + 1); }
  }

  /** A match is as long as the bytes agree. */
  lemma {:induction false} MatchExtends(data: seq<Byte>, p: nat, i: nat, k: nat)
    requires p < i <= |data| && k <= Limit(data, i) && Repeats(data, i, i - p, k)
    ensures MatchLen(data, p, i) == MatchFrom(data, p, i, k)
    decreases k
  {
    if k > 0 {
      MatchExtends(data, p, i, k - 1);
      assert data[i + (k - 1)] == data[i + (k - 1) - (i - p)];
    }
  }

  /** A match of three bytes or more begins with three equal bytes. */
  lemma MatchesThree(data: seq<Byte>, p: nat, i: nat)
    requires p < i && i + 3 <= |data|
    ensures MatchLen(data, p, i) >= 3 <==>
      data[p] == data[i] && data[p + 1] == data[i + 1] && data[p + 2] == data[i + 2]
  {
    var r := MatchLen(data, p, i);
    MatchFromSpec(data, p, i, 0);
    if r >= 3 {
      assert data[i] == data[i - (i - p)] && data[i + 1] == data[i + 1 - (i - p)]
          && data[i + 2] == data[i + 2 - (i - p)];
    }
    if r == 0 { assert data[p + 0] != data[i + 0]; }
  }

  /** The l bytes at p and at i are the same. */
  predicate Agree(data: seq<Byte>, p: nat, i: nat, l: nat)
    requires p < i && i + l <= |data|
  {
    data[p..p + l] == data[i..i + l]
  }

  lemma AgreeRepeats(data: seq<Byte>, p: nat, i: nat, l: nat)
    requires p < i && i + l <= |data|
    ensures Agree(data, p, i, l) <==> Repeats(data, i, i - p, l)
  {
    var a, b := data[p..p + l], data[i..i + l];
    if Repeats(data, i, i - p, l) {
      forall j | 0 <= j < l ensures a[j] == b[j] { assert data[i + j] == data[i + j - (i - p)]; }
    }
    if Agree(data, p, i, l) {
      forall j | i <= j < i + l ensures data[j] == data[j - (i - p)] { assert a[j - i] == b[j - i]; }
    }
  }

  /** The length of a match is the largest up to 18, inside the data, for which the bytes agree. */
  lemma MatchLenIff(data: seq<Byte>, p: nat, i: nat, l: nat)
    requires p < i <= |data| && l <= 18 && i + l <= |data|
    ensures Agree(data, p, i, l) <==> l <= MatchLen(data, p, i)
  {
    var r := MatchLen(data, p, i);
    MatchFromSpec(data, p, i, 0);
    AgreeRepeats(data, p, i, r);
    if l > r { assert data[p..p + l][r] == data[p + r] && data[i..i + l][r] == data[i + r]; }
    if l <= r { assert data[p..p + l] == data[p..p + r][..l] && data[i..i + l] == data[i..i + r][..l]; }
  }

  /** In so many words: a copy of l bytes from p is possible. */
  predicate Possible(data: seq<Byte>, i: nat, p: int, l: nat) {
    0 <= p < i && i - p <= 4096 && 3 <= l <= 18 && i + l <= |data| && Agree(data, p, i, l)
  }

  /** An item that reproduces the data at i. */
  ghost predicate Fitting(data: seq<Byte>, i: nat, it: Item) {
    i < |data| &&
    match it
    case Lit(b) => b == data[i]
    case Copy(d, l) => 1 <= d <= i && d <= 4096 && 3 <= l <= 18 && i + l <= |data| && Repeats(data, i, d, l)
  }

  function StepOf(it: Item): nat { match it case Lit(_) => 1 case Copy(_, l) => l }

  function Total(its: seq<Item>): nat { if its == [] then 0 else StepOf(its[0]) + Total(its[1..]) }

  lemma FittingApplies(data: seq<Byte>, i: nat, it: Item)
    requires Fitting(data, i, it)
    ensures i + StepOf(it) <= |data| && ItemOk(data[..i], it) && Apply(data[..i], it) == data[..i + StepOf(it)]
        && ItemFits(it)
  {
    match it
    case Lit(b) => assert data[..i] + [b] == data[..i + 1];
    case Copy(d, l) => CopyMatch(data, i, d, l);
  }

  // ----- collecting items into groups -----

  /** `a` has been written in whole groups; `g` is the group being filled. */
  ghost predicate Packing(a: seq<Item>, g: seq<Item>, out: seq<Byte>, items: seq<Byte>, flags: nat, nf: nat) {
    |a| % 8 == 0 && |g| < 8 && Fits(a) && Fits(g) && out == Wire(a) && items == Bodies(g) && flags == Flags(g)
        && nf == |g|
  }

  /** The items so far stand for the first i bytes. */
  ghost predicate Covers(data: seq<Byte>, i: nat, a: seq<Item>, g: seq<Item>) {
    i <= |data| && Valid([], a + g) && Expand([], a + g) == data[..i]
  }

  lemma Covered(data: seq<Byte>, a: seq<Item>, g: seq<Item>)
    requires Covers(data, |data|, a, g)
    ensures Valid([], a + g) && Expand([], a + g) == data
  {
    assert data[..|data|] == data;
  }

  method PutItem(out: seq<Byte>, items: seq<Byte>, flags: nat, nf: nat, it: Item, ghost data: seq<Byte>, ghost i: nat,
      ghost a: seq<Item>, ghost g: seq<Item>)
    returns (out': seq<Byte>, items': seq<Byte>, flags': nat, nf': nat, ghost a': seq<Item>, ghost g': seq<Item>)
    requires Packing(a, g, out, items, flags, nf) && Covers(data, i, a, g) && Fitting(data, i, it)
    ensures Packing(a', g', out', items', flags', nf') && Covers(data, i + StepOf(it), a', g')
        && a' + g' == a + g + [it]
  {
    hide Wire, Flags, Or, And, Shl, Shr, Pow2, Valid, Expand, Fitting, Group, Apply, CopyOut, ItemOk, Repeats;
    FittingApplies(data, i, it);
    ExpandSnoc([], a + g, it);
    match it {
      case Lit(b) =>
        FlagsOr(g, it);
        flags' := Or(flags, Pow2(nf));
        items' := items + [b];
      case Copy(d, l) =>
        CodeRoundTrip(d, l);
        FlagsSnoc(g, it);
        var code := Code(d, l);
        flags' := flags;
        items' := items + [HighByte(code), LowByte(code)];
    }
    assert Fits(g + [it]);
    BodiesSnoc(g, it);
    nf' := nf + 1;
    out' := out;
    a', g' := a, g + [it];
    assert a + (g + [it]) == a + g + [it];
    if nf' == 8 {
      Powers();
      FlagsByte(g + [it]);
      out' := out + [flags'] + items';
      FitsJoin(a, g + [it]);
      WireJoin(a, g + [it]);
      GroupIs(g + [it]);
      items', flags', nf' := [], 0, 0;
      a', g' := a + (g + [it]), [];
      NoItems();
      assert a' + [] == a';
    }
  }

  lemma FlagsByte(g: seq<Item>)
    requires |g| <= 8
    ensures Flags(g) < 256
  {
    Powers();
    Pow2Mono(|g|, 8);
  }

  lemma GroupIs(g: seq<Item>)
    requires Fits(g) && |g| <= 8
    ensures Flags(g) < 256 && Group(g) == [Flags(g)] + Bodies(g)
  {
    FlagsByte(g);
  }

  lemma NoItems()
    ensures Fits([]) && Bodies([]) == [] && Flags([]) == 0 && Wire([]) == []
  {}

  lemma FitsJoin(a: seq<Item>, b: seq<Item>)
    requires Fits(a) && Fits(b)
    ensures Fits(a + b)
  {}

  /** The last, incomplete group. */
  method Flush(out: seq<Byte>, items: seq<Byte>, flags: nat, nf: nat, ghost a: seq<Item>,
      ghost g: seq<Item>) returns (r: seq<Byte>)
    requires Packing(a, g, out, items, flags, nf)
    ensures Fits(a + g) && r == Wire(a + g)
  {
    hide Wire, Group, Flags, Bodies;
    FitsJoin(a, g);
    r := out;
    if nf > 0 {
      FlagsByte(g);
      WireJoin(a, g);
      GroupIs(g);
      r := out + [flags] + items;
    } else {
      assert a + g == a;
    }
  }

  /** A stream for the data: items that stand for it, in the wire format. */
  ghost predicate Packs(data: seq<Byte>, its: seq<Item>, r: seq<Byte>) {
    Valid([], its) && Fits(its) && Expand([], its) == data && r == Wire(its)
  }

  /** Any stream for the data decodes back to it and is at most an eighth longer. */
  lemma PacksRoundTrip(data: seq<Byte>, its: seq<Item>, r: seq<Byte>)
    requires Packs(data, its, r)
    ensures Unpack(r, 0, [], |data|) == Unpacked(data) && |r| <= |data| + (|data| + 7) / 8
  {
    RoundTrip(its);
    PackedSize(its);
  }
}
