/** The compressor and the decoder for files carried inside the compiler's own executable. */
module Absorb {
  import opened Common
  import opened Bits
  import opened Lzss
  import opened Packers

  function Hash(data: seq<Byte>, p: nat): (h: nat)
    requires p + 3 <= |data|
    ensures h < 4096
  {
    var a: int, b: int, c: int := data[p], data[p + 1], data[p + 2];
    HashSmall((a * 251 + b) * 251 + c);
    And((a * 251 + b) * 251 + c, 4095)
  }

  lemma HashSmall(x: nat)
    ensures And(x, 4095) == x % 4096
  {
    hide And, Low, Shr, Shl;
    Powers();
    AndMask(x, 12);
    Split(x, 12);
    ShlTimes(Shr(x, 12), 12);
  }

  lemma HashIs(data: seq<Byte>, p: nat)
    requires p + 3 <= |data|
    ensures var a: int, b: int, c: int := data[p], data[p + 1], data[p + 2];
      Hash(data, p) == ((a * 251 + b) * 251 + c) % 4096
  {
    var a: int, b: int, c: int := data[p], data[p + 1], data[p + 2];
    HashSmall((a * 251 + b) * 251 + c);
  }

  /** The last position before m with hash h, or -1. */
  function Last(data: seq<Byte>, m: nat, h: nat): (r: int)
    ensures -1 <= r < m && (r >= 0 ==> r + 3 <= |data| && Hash(data, r) == h)
  {
    if m == 0 then -1 else if m - 1 + 3 <= |data| && Hash(data, m - 1) == h then m - 1 else Last(data, m - 1, h)
  }

  /** The k-th position looked at for i, going back along the chain of its hash. */
  function Probe(data: seq<Byte>, i: nat, k: nat): (r: int)
    requires i + 3 <= |data|
    ensures -1 <= r < i && (r >= 0 ==> r + 3 <= |data| && Hash(data, r) == Hash(data, i))
    decreases k
  {
    if k == 0 then Last(data, i, Hash(data, i))
    else if Probe(data, i, k - 1) < 0 then -1 else Last(data, Probe(data, i, k - 1), Hash(data, i))
  }

  lemma {:induction false} ProbesFall(data: seq<Byte>, i: nat, k: nat, n: nat)
    requires i + 3 <= |data| && k <= n
    ensures Probe(data, i, n) <= Probe(data, i, k)
    decreases n - k
  {
    if k < n { ProbesFall(data, i, k + 1, n); }
  }

  /** How many positions between p and m have hash h. */
  function Crowd(data: seq<Byte>, p: nat, m: nat, h: nat): nat {
    if m <= p + 1 then 0
    else Crowd(data, p, m - 1, h) + if m - 1 + 3 <= |data| && Hash(data, m - 1) == h then 1 else 0
  }

  /** The next position of the chain is p, or there is one less in between. */
  lemma {:induction false} LastCrowd(data: seq<Byte>, p: nat, m: nat)
    requires p < m && p + 3 <= |data|
    ensures var h := Hash(data, p);
      var q := Last(data, m, h);
      && p <= q && (q == p ==> Crowd(data, p, m, h) == 0)
      && (q > p ==> Crowd(data, p, m, h) == Crowd(data, p, q, h) + 1)
    decreases m
  {
    hide Hash;
    if m - 1 > p && !(m - 1 + 3 <= |data| && Hash(data, m - 1) == Hash(data, p)) { LastCrowd(data, p, m - 1); }
  }

  /** Two positions with the same three bytes are on the same chain: the earlier one is looked at, unless
      128 others come first. */
  lemma {:induction false} ChainFinds(data: seq<Byte>, p: nat, i: nat, k: nat)
    requires p < i && i + 3 <= |data| && Hash(data, p) == Hash(data, i)
    requires k == 0 || Probe(data, i, k - 1) > p
    requires Crowd(data, p, if k == 0 then i else Probe(data, i, k - 1), Hash(data, i)) + k < 128
    ensures IsProbe(data, i, 128, p)
    decreases 128 - k
  {
    hide Hash;
    LastCrowd(data, p, if k == 0 then i else Probe(data, i, k - 1));
    if Probe(data, i, k) > p { ChainFinds(data, p, i, k + 1); }
  }

  /** heads and prev hold the chains of all positions before m. */
  ghost predicate Chained(data: seq<Byte>, m: nat, heads: array<int>, prev: array<int>)
    reads heads, prev
  {
    && heads.Length == 4096 && prev.Length == |data| + 1
    && (forall h :: 0 <= h < 4096 ==> heads[h] == Last(data, m, h))
    && forall p :: 0 <= p < m && p + 3 <= |data| ==> prev[p] == Last(data, p, Hash(data, p))
  }

  /** After n probes: the best match among them. */
  ghost predicate Probed(data: seq<Byte>, i: nat, n: nat, best: nat, dist: nat)
    requires i + 3 <= |data|
  {
    && (best == 0 || (3 <= best && 1 <= dist <= i && dist <= 4096 && MatchLen(data, i - dist, i) == best
        && IsProbe(data, i, n, i - dist)))
    && forall k {:trigger Probe(data, i, k)} :: 0 <= k < n && Matching(data, i, Probe(data, i, k))
        ==> Better(data, i, best, dist, Probe(data, i, k))
  }

  /** One of the first n probes. */
  ghost predicate IsProbe(data: seq<Byte>, i: nat, n: nat, p: int)
    requires i + 3 <= |data|
  {
    exists k: nat :: k < n && Probe(data, i, k) == p
  }

  /** A match worth an item. */
  predicate Matching(data: seq<Byte>, i: nat, p: int)
    requires i <= |data|
  {
    InWindow(p, i) && MatchLen(data, p, i) >= 3
  }

  /** A match is longer than the one at p, or as long and nearer. */
  predicate Better(data: seq<Byte>, i: nat, len: nat, dist: nat, p: int)
    requires i <= |data| && InWindow(p, i)
  {
    MatchLen(data, p, i) < len || (MatchLen(data, p, i) == len && p <= i - dist)
  }

  /** The item for position i: the longest match among the first 128 positions of its chain, the
      nearest if there are several; a literal when none is three bytes long. */
  ghost predicate ChainBest(data: seq<Byte>, i: nat, it: Item) {
    && Fitting(data, i, it)
    && (it.Copy? ==> MatchLen(data, i - it.dist, i) == it.len && IsProbe(data, i, 128, i - it.dist))
    && (i + 3 <= |data| ==>
        forall k {:trigger Probe(data, i, k)} :: 0 <= k < 128 && Matching(data, i, Probe(data, i, k)) ==>
          it.Copy? && Better(data, i, it.len, it.dist, Probe(data, i, k)))
  }

  /** So it is at least as good as every copy that is possible from a position with fewer than 128 others of
      the same hash in front of it. */
  lemma ChainBestFinds(data: seq<Byte>, i: nat, it: Item, p: nat, l: nat)
    requires ChainBest(data, i, it) && Possible(data, i, p, l) && Crowd(data, p, i, Hash(data, i)) < 128
    ensures it.Copy? && (l < it.len || (l == it.len && p <= i - it.dist))
  {
    hide MatchLen, Probe, Last;
    MatchLenIff(data, p, i, l);
    MatchesThree(data, p, i);
    ChainFinds(data, p, i, 0);
    var k: nat :| k < 128 && Probe(data, i, k) == p;
    assert Matching(data, i, Probe(data, i, k));
  }

  /** At every position there is one such item. */
  lemma ChainBestUnique(data: seq<Byte>, i: nat, a: Item, b: Item)
    requires ChainBest(data, i, a) && ChainBest(data, i, b)
    ensures a == b
  {
    hide MatchLen, Probe;
    if a.Copy? { OtherLoses(data, i, a, b); }
    if b.Copy? { OtherLoses(data, i, b, a); }
  }

  lemma OtherLoses(data: seq<Byte>, i: nat, a: Item, b: Item)
    requires ChainBest(data, i, a) && ChainBest(data, i, b) && a.Copy?
    ensures b.Copy? && Better(data, i, b.len, b.dist, i - a.dist)
  {
    hide MatchLen, Probe;
    var k: nat :| k < 128 && Probe(data, i, k) == i - a.dist;
    assert Matching(data, i, Probe(data, i, k));
  }

  lemma {:induction false} AllChainBestUnique(data: seq<Byte>, i: nat, a: seq<Item>, b: seq<Item>)
    requires AllChainBest(data, i, a) && AllChainBest(data, i, b) && i + Total(a) == i + Total(b) == |data|
    ensures a == b
    decreases |a|
  {
    hide ChainBest;
    if a != [] && b != [] {
      ChainBestUnique(data, i, a[0], b[0]);
      AllChainBestUnique(data, i + StepOf(a[0]), a[1..], b[1..]);
      assert a == [a[0]] + a[1..] && b == [b[0]] + b[1..];
    } else {
      StepsCount(data, i, a);
      StepsCount(data, i, b);
    }
  }

  lemma StepsCount(data: seq<Byte>, i: nat, its: seq<Item>)
    requires AllChainBest(data, i, its)
    ensures its != [] ==> Total(its) > 0
  {}

  /** The stream of the data: in the wire format, with every item the best of its chain. */
  ghost predicate Stream(data: seq<Byte>, r: seq<Byte>) {
    exists its :: Packs(data, its, r) && AllChainBest(data, 0, its) && Total(its) == |data|
  }

  /** Data has one stream only. */
  lemma StreamUnique(data: seq<Byte>, a: seq<Byte>, b: seq<Byte>)
    requires Stream(data, a) && Stream(data, b)
    ensures a == b
  {
    hide AllChainBest, Total, Wire, Valid, Expand;
    var x :| Packs(data, x, a) && AllChainBest(data, 0, x) && Total(x) == |data|;
    var y :| Packs(data, y, b) && AllChainBest(data, 0, y) && Total(y) == |data|;
    AllChainBestUnique(data, 0, x, y);
  }

  ghost predicate AllChainBest(data: seq<Byte>, i: nat, its: seq<Item>)
    decreases |its|
  {
    its != [] ==> ChainBest(data, i, its[0]) && AllChainBest(data, i + StepOf(its[0]), its[1..])
  }

  lemma {:induction false} AllChainBestSnoc(data: seq<Byte>, i: nat, its: seq<Item>, it: Item)
    requires AllChainBest(data, i, its) && ChainBest(data, i + Total(its), it)
    ensures AllChainBest(data, i, its + [it]) && Total(its + [it]) == Total(its) + StepOf(it)
    decreases |its|
  {
    hide ChainBest;
    if its == [] {
      assert its + [it] == [it] && [it][1..] == [];
    } else {
      assert (its + [it])[0] == its[0] && (its + [it])[1..] == its[1..] + [it];
      AllChainBestSnoc(data, i + StepOf(its[0]), its[1..], it);
    }
  }

  /** The match at pos, 0 if it is shorter than three bytes. */
  method Measured(data: seq<Byte>, i: nat, pos: nat) returns (n: nat)
    requires pos < i && i + 3 <= |data|
    ensures n == (if MatchLen(data, pos, i) >= 3 then MatchLen(data, pos, i) else 0)
  {
    MatchesThree(data, pos, i);
    n := 0;
    if data[pos] == data[i] && data[pos + 1] == data[i + 1] && data[pos + 2] == data[i + 2] {
      MatchFromSpec(data, pos, i, 0);
      n := 3;
      MatchExtends(data, pos, i, 3);
      while n < Limit(data, i) && data[pos + n] == data[i + n]
        invariant 3 <= n <= Limit(data, i) && MatchFrom(data, pos, i, n) == MatchLen(data, pos, i)
      {
        n := n + 1;
      }
    }
  }

  method Chase(data: seq<Byte>, i: nat, heads: array<int>, prev: array<int>) returns (best: nat, dist: nat)
    requires i + 3 <= |data| && Chained(data, i, heads, prev)
    ensures Probed(data, i, 128, best, dist)
  {
    hide MatchLen, Last, Hash;
    best, dist := 0, 0;
    var pos := heads[Hash(data, i)];
    var probes: nat := 0;
    while pos >= 0 && i - pos <= 4096 && probes < 128
      invariant probes <= 128 && pos == Probe(data, i, probes) && Probed(data, i, probes, best, dist)
    {
      var n := Measured(data, i, pos);
      Improved(data, i, probes, best, dist, n);
      if n > best {
        best, dist := n, i - pos;
        if n == 18 {
          NoLonger(data, i, probes + 1, dist);
          return;
        }
      }
      pos := prev[pos];
      probes := probes + 1;
    }
    RestTooFar(data, i, probes, best, dist);
  }

  /** One more probe. */
  lemma Improved(data: seq<Byte>, i: nat, k: nat, best: nat, dist: nat, n: nat)
    requires i + 3 <= |data| && Probed(data, i, k, best, dist) && InWindow(Probe(data, i, k), i)
    requires n == if Matching(data, i, Probe(data, i, k)) then MatchLen(data, Probe(data, i, k), i) else 0
    ensures if n > best then Probed(data, i, k + 1, n, i - Probe(data, i, k)) else Probed(data, i, k + 1, best, dist)
  {
    hide MatchLen, Probe;
    if best > 0 {
      var j: nat :| j < k && Probe(data, i, j) == i - dist;
      ProbesFall(data, i, j, k);
    }
  }

  /** A match of 18 bytes ends the search. */
  lemma NoLonger(data: seq<Byte>, i: nat, n: nat, dist: nat)
    requires i + 3 <= |data| && n <= 128 && Probed(data, i, n, 18, dist)
    ensures Probed(data, i, 128, 18, dist)
  {
    hide Probe;
    var j: nat :| j < n && Probe(data, i, j) == i - dist;
    forall k {:trigger Probe(data, i, k)} | 0 <= k < 128 && Matching(data, i, Probe(data, i, k))
        ensures Better(data, i, 18, dist, Probe(data, i, k)) {
      if k >= n { ProbesFall(data, i, j, k); }
    }
  }

  lemma RestTooFar(data: seq<Byte>, i: nat, n: nat, best: nat, dist: nat)
    requires i + 3 <= |data| && n <= 128 && Probed(data, i, n, best, dist)
        && (n == 128 || !InWindow(Probe(data, i, n), i))
    ensures Probed(data, i, 128, best, dist)
  {
    forall k {:trigger Probe(data, i, k)} | n <= k < 128
      ensures !InWindow(Probe(data, i, k), i)
    {
      ProbesFall(data, i, n, k);
    }
  }

  lemma ProbedBest(data: seq<Byte>, i: nat, best: nat, dist: nat)
    requires i + 3 <= |data| && Probed(data, i, 128, best, dist)
    ensures ChainBest(data, i, if best >= 3 then Copy(dist, best) else Lit(data[i]))
  {
    if best >= 3 { MatchFromSpec(data, i - dist, i, 0); }
  }

  /** Puts position m at the head of its chain. */
  method Link(data: seq<Byte>, m: nat, heads: array<int>, prev: array<int>)
    requires m < |data| && heads != prev && Chained(data, m, heads, prev)
    modifies heads, prev
    ensures Chained(data, m + 1, heads, prev)
  {
    hide Hash;
    if m + 3 <= |data| {
      var slot := Hash(data, m);
      prev[m] := heads[slot];
      heads[slot] := m;
    }
  }

  method Compress(data: seq<Byte>) returns (r: seq<Byte>, ghost its: seq<Item>)
    ensures Packs(data, its, r) && AllChainBest(data, 0, its) && Total(its) == |data|
  {
    hide Packing, Covers, ChainBest, Probed, Fitting, AllChainBest, Total, Wire, Valid, Expand, Fits, MatchLen,
        Chained, Hash, Last, Probe, ItemOk, Apply, CopyOut, ItemFits;
    var heads := new int[4096](_ => -1);
    var prev := new int[|data| + 1];
    var out: seq<Byte>, items: seq<Byte>, flags: nat, nf: nat := [], [], 0, 0;
    ghost var a: seq<Item>, g: seq<Item> := [], [];
    NothingYet(data, heads, prev);
    var i: nat := 0;
    while i < |data|
      invariant i <= |data| && Packing(a, g, out, items, flags, nf) && Covers(data, i, a, g) && heads != prev
          && Chained(data, i, heads, prev)
      invariant fresh(heads) && fresh(prev) && AllChainBest(data, 0, a + g) && Total(a + g) == i
    {
      var it := Lit(data[i]);
      if i + 3 <= |data| {
        var best, dist := Chase(data, i, heads, prev);
        ProbedBest(data, i, best, dist);
        if best >= 3 { it := Copy(dist, best); }
      } else {
        AtTheEnd(data, i);
      }
      ChainBestFits(data, i, it);
      AllChainBestSnoc(data, 0, a + g, it);
      FittingApplies(data, i, it);
      out, items, flags, nf, a, g := PutItem(out, items, flags, nf, it, data, i, a, g);
      var step := StepOf(it);
      for k := 0 to step
        invariant Chained(data, i + k, heads, prev)
      {
        Link(data, i + k, heads, prev);
      }
      i := i + step;
    }
    r := Flush(out, items, flags, nf, a, g);
    its := a + g;
    Covered(data, a, g);
    PackingFits(a, g, out, items, flags, nf);
  }

  lemma PackingFits(a: seq<Item>, g: seq<Item>, out: seq<Byte>, items: seq<Byte>, flags: nat, nf: nat)
    requires Packing(a, g, out, items, flags, nf)
    ensures Fits(a + g)
  {
    FitsJoin(a, g);
  }

  lemma AtTheEnd(data: seq<Byte>, i: nat)
    requires i < |data| < i + 3
    ensures ChainBest(data, i, Lit(data[i]))
  {}

  lemma ChainBestFits(data: seq<Byte>, i: nat, it: Item)
    requires ChainBest(data, i, it)
    ensures Fitting(data, i, it)
  {}

  lemma NothingYet(data: seq<Byte>, heads: array<int>, prev: array<int>)
    requires heads.Length == 4096 && prev.Length == |data| + 1 && forall h :: 0 <= h < 4096 ==> heads[h] == -1
    ensures Packing([], [], [], [], 0, 0) && Covers(data, 0, [], []) && Chained(data, 0, heads, prev)
        && AllChainBest(data, 0, [] + []) && Total([] + []) == 0
  {
    assert data[..0] == [];
    var none: seq<Item> := [];
    assert none + none == none;
  }

  /** Copies within the buffer, byte by byte. */
  method CopyBack(out: array<Byte>, oi: nat, dist: nat, len: nat)
    requires 1 <= dist <= oi && oi + len <= out.Length
    modifies out
    ensures out[..oi + len] == CopyOut(old(out[..oi]), dist, len)
  {
    var from := oi - dist;
    var k := 0;
    while k < len
      invariant 0 <= k <= len && CopyOut(out[..oi + k], dist, len - k) == CopyOut(old(out[..oi]), dist, len)
    {
      ghost var was := out[..oi + k];
      out[oi + k] := out[from + k];
      assert out[..oi + k + 1] == was + [was[|was| - dist]];
      k := k + 1;
    }
  }

  /** The greatest length, 2^63 - 1. */
  const LONGEST: nat := 0x7FFF_FFFF_FFFF_FFFF

  /** The size that is asked for, for so many bytes and a terminator. */
  function Requested(total: nat): I64 { Wrap(total + 1) }

  /** The request is for what is needed, but for the greatest length: there the sum wraps. */
  lemma RequestedIff(total: nat)
    requires total <= LONGEST
    ensures Requested(total) == total + 1 <==> total < LONGEST
    ensures total == LONGEST ==> Requested(total) == -0x8000_0000_0000_0000
  {}

  /** The first item of the stream is a literal. */
  predicate StartsLiteral(src: seq<Byte>) { |src| >= 2 && And(src[0], Pow2(0)) != 0 }

  /** NoRoom: the allocator, asked for a negative size, returns its current position with no room behind it,
      and the decoder writes there. */
  datatype Decoded = Settled(outcome: Outcome) | NoRoom

  /** What decoding comes to. Without room nothing can be copied, so the first item writes or is rejected. */
  function Decoding(src: seq<Byte>, total: nat): Decoded {
    if Requested(total) == total + 1 then Settled(Unpack(src, 0, [], total))
    else if StartsLiteral(src) then NoRoom
    else Settled(Corrupt)
  }

  /** Decodes, or rejects, or finds no room; reads no byte outside of the stream. */
  method Decode(src: seq<Byte>, total: nat) returns (r: Decoded)
    requires total <= LONGEST
    ensures r == Decoding(src, total)
  {
    hide And, Pow2, Shl, Shr, Or, CopyOut, Wrap;
    RequestedIff(total);
    var size := Requested(total);
    var out := new Byte[if size < 0 then 0 else size](_ => 0);
    var si: nat, oi: nat := 0, 0;
    assert out[..0] == [];
    while oi < total
      invariant si <= |src| && oi <= total && oi <= out.Length
      invariant out.Length == 0 ==> si == 0
      invariant Unpack(src, 0, [], total) == Unpack(src, si, out[..oi], total)
      decreases |src| - si
    {
      if si >= |src| { return Settled(Corrupt); }
      var flags := src[si];
      ghost var si0 := si;
      si := si + 1;
      var bit: nat := 0;
      while bit < 8 && oi < total
        invariant si0 < si <= |src| && oi <= total && oi <= out.Length && bit <= 8
        invariant out.Length == 0 ==> si == 1 && bit == 0 && flags == src[0]
        invariant Unpack(src, 0, [], total) == Items(src, si, flags, bit, out[..oi], total)
        decreases 8 - bit
      {
        ghost var was := out[..oi];
        if And(flags, Pow2(bit)) != 0 {
          if si >= |src| { return Settled(Corrupt); }
          if oi >= out.Length { return NoRoom; }
          out[oi] := src[si];
          assert out[..oi + 1] == was + [src[si]];
          si := si + 1;
          oi := oi + 1;
        } else {
          if si + 1 >= |src| { return Settled(Corrupt); }
          var code := Joined(src[si], src[si + 1]);
          si := si + 2;
          var dist, len := CodeDist(code), CodeLen(code);
          if dist > oi || oi + len > total { return Settled(Corrupt); }
          CopyBack(out, oi, dist, len);
          oi := oi + len;
        }
        bit := bit + 1;
      }
    }
    r := Settled(Unpacked(out[..total]));
  }

  /** A stream that stands for something starts with a literal: there is nothing yet to refer to. */
  lemma StreamStarts(its: seq<Item>)
    requires Valid([], its) && Fits(its) && its != []
    ensures StartsLiteral(Wire(its))
  {
    hide And, Expand, Apply;
    var g := if |its| <= 8 then its else its[..8];
    assert g[0] == its[0] && ItemOk([], its[0]);
    FlagBit(g, 0);
  }

  /** Whatever is packed comes back, unless it has the greatest length or more. */
  method PackAndCheck(data: seq<Byte>) returns (check: Decoded, packed: seq<Byte>)
    ensures Stream(data, packed)
    ensures Unpack(packed, 0, [], |data|) == Unpacked(data) && |packed| <= |data| + (|data| + 7) / 8
    ensures check == if |data| < LONGEST then Settled(Unpacked(data)) else NoRoom
  {
    hide Unpack, StartsLiteral, Valid, Expand, Fits, Wire, AllChainBest, Total, Requested;
    ghost var its;
    packed, its := Compress(data);
    PacksRoundTrip(data, its, packed);
    check := NoRoom;
    if |data| <= LONGEST {
      RequestedIff(|data|);
      if data != [] {
        ExpandNothing([]);
        StreamStarts(its);
      }
      check := Decode(packed, |data|);
    }
  }
}
