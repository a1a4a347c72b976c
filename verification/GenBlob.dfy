/** The packer of the standard library: for every position, the longest match in the window. */
module GenBlob {
  import opened Bits
  import opened Lzss
  import opened Packers

  /** The item for position i: a literal when nothing in the window matches three bytes or more;
      otherwise the longest match, the nearest one if there are several. */
  ghost predicate Best(data: seq<Byte>, i: nat, it: Item) {
    Fitting(data, i, it) &&
    match it
    case Lit(_) => forall p :: InWindow(p, i) ==> MatchLen(data, p, i) < 3
    case Copy(d, l) => MatchLen(data, i - d, i) == l && forall p :: InWindow(p, i) ==>
      MatchLen(data, p, i) < l || (MatchLen(data, p, i) == l && p <= i - d)
  }

  /** The best item is a literal exactly when no copy is possible, and otherwise the longest, from nearest. */
  lemma BestIff(data: seq<Byte>, i: nat, it: Item)
    requires i < |data|
    ensures it.Lit? ==>
      (Best(data, i, it) <==> it.b == data[i] && forall p, l: nat :: !Possible(data, i, p, l))
    ensures it.Copy? ==>
      (Best(data, i, it) <==>
        && Possible(data, i, i - it.dist, it.len)
        && forall p, l: nat :: Possible(data, i, p, l) ==> l < it.len || (l == it.len && p <= i - it.dist))
  {
    hide MatchLen, Agree, Repeats;
    forall p: nat, l: nat | 0 <= p < i && l <= 18 && i + l <= |data|
      ensures Agree(data, p, i, l) <==> l <= MatchLen(data, p, i)
    {
      MatchLenIff(data, p, i, l);
    }
    if it.Copy? && 1 <= it.dist <= i && i + it.len <= |data| { AgreeRepeats(data, i - it.dist, i, it.len); }
    if it.Lit? { LitBest(data, i, it); } else { CopyBest(data, i, it); }
  }

  lemma LitBest(data: seq<Byte>, i: nat, it: Item)
    requires i < |data| && it.Lit?
    requires forall p: nat, l: nat {:trigger Agree(data, p, i, l)} :: 0 <= p < i && l <= 18 && i + l <= |data| ==>
      (Agree(data, p, i, l) <==> l <= MatchLen(data, p, i))
    ensures Best(data, i, it) <==> it.b == data[i] && forall p, l: nat :: !Possible(data, i, p, l)
  {
    hide MatchLen, Agree, Repeats;
    if it.b == data[i] && forall p, l: nat :: !Possible(data, i, p, l) {
      forall p | InWindow(p, i) ensures MatchLen(data, p, i) < 3 {
        assert MatchLen(data, p, i) < 3 || Possible(data, i, p, MatchLen(data, p, i));
      }
    }
  }

  lemma CopyBest(data: seq<Byte>, i: nat, it: Item)
    requires i < |data| && it.Copy?
    requires forall p: nat, l: nat {:trigger Agree(data, p, i, l)} :: 0 <= p < i && l <= 18 && i + l <= |data| ==>
      (Agree(data, p, i, l) <==> l <= MatchLen(data, p, i))
    requires 1 <= it.dist <= i && i + it.len <= |data| ==>
      (Agree(data, i - it.dist, i, it.len) <==> Repeats(data, i, it.dist, it.len))
    ensures Best(data, i, it) <==>
            && Possible(data, i, i - it.dist, it.len)
            && forall p, l: nat :: Possible(data, i, p, l) ==> l < it.len || (l == it.len && p <= i - it.dist)
  {
    hide MatchLen, Agree, Repeats;
    var d, n := it.dist, it.len;
    if Possible(data, i, i - d, n)
        && forall p, l: nat :: Possible(data, i, p, l) ==> l < n || (l == n && p <= i - d) {
      var m := MatchLen(data, i - d, i);
      assert Possible(data, i, i - d, m);
      forall p | InWindow(p, i)
        ensures MatchLen(data, p, i) < n || (MatchLen(data, p, i) == n && p <= i - d)
      {
        if MatchLen(data, p, i) >= 3 { assert Possible(data, i, p, MatchLen(data, p, i)); }
      }
    }
  }

  /** Every item is the best one where it stands. */
  ghost predicate Greedy(data: seq<Byte>, i: nat, its: seq<Item>)
    decreases |its|
  {
    its != [] ==> Best(data, i, its[0]) && Greedy(data, i + StepOf(its[0]), its[1..])
  }

  lemma {:induction false} GreedySnoc(data: seq<Byte>, i: nat, its: seq<Item>, it: Item)
    requires Greedy(data, i, its) && Best(data, i + Total(its), it)
    ensures Greedy(data, i, its + [it]) && Total(its + [it]) == Total(its) + StepOf(it)
    decreases |its|
  {
    hide Best;
    if its == [] {
      assert its + [it] == [it] && [it][1..] == [];
    } else {
      assert (its + [it])[0] == its[0] && (its + [it])[1..] == its[1..] + [it];
      GreedySnoc(data, i + StepOf(its[0]), its[1..], it);
    }
  }

  // ----- the index of three-byte keys -----

  function Key(data: seq<Byte>, p: nat): (r: seq<Byte>)
    requires p + 3 <= |data|
    ensures r == [data[p], data[p + 1], data[p + 2]]
  {
    data[p..p + 3]
  }

  /** Positions in increasing order, all before m, where the key starts. */
  ghost predicate Listing(data: seq<Byte>, m: nat, key: seq<Byte>, l: seq<nat>) {
    && (forall j {:trigger l[j]} :: 0 <= j < |l| ==> l[j] < m && l[j] + 3 <= |data| && Key(data, l[j]) == key)
    && forall j, k :: 0 <= j < k < |l| ==> l[j] < l[k]
  }

  function ListOf(heads: map<seq<Byte>, seq<nat>>, key: seq<Byte>): seq<nat> { if key in heads then heads[key] else [] }

  /** The list of a key holds, in order, the positions before m where the key starts. */
  ghost predicate Indexed(data: seq<Byte>, m: nat, heads: map<seq<Byte>, seq<nat>>) {
    && (forall key :: Listing(data, m, key, ListOf(heads, key)))
    && forall p {:trigger Key(data, p)} :: 0 <= p < m && p + 3 <= |data| ==> p in ListOf(heads, Key(data, p))
  }

  method AddKey(data: seq<Byte>, m: nat, heads: map<seq<Byte>, seq<nat>>) returns (r: map<seq<Byte>, seq<nat>>)
    requires Indexed(data, m, heads)
    ensures Indexed(data, m + 1, r)
  {
    r := heads;
    if m + 3 <= |data| {
      var key := data[m..m + 3];
      r := heads[key := ListOf(heads, key) + [m]];
      KeyAdded(data, m, heads, r);
    } else {
      forall key ensures Listing(data, m + 1, key, ListOf(r, key)) { assert Listing(data, m, key, ListOf(heads, key)); }
    }
  }

  lemma KeyAdded(data: seq<Byte>, m: nat, heads: map<seq<Byte>, seq<nat>>, r: map<seq<Byte>, seq<nat>>)
    requires m + 3 <= |data| && Indexed(data, m, heads) && r == heads[Key(data, m) := ListOf(heads, Key(data, m)) + [m]]
    ensures Indexed(data, m + 1, r)
  {
    hide Listing, Key;
    var key := Key(data, m);
    var l := ListOf(heads, key);
    forall k ensures Listing(data, m + 1, k, ListOf(r, k)) {
      assert Listing(data, m, k, ListOf(heads, k));
      if k == key { ListingSnoc(data, m, l); } else { ListingMore(data, m, k, ListOf(heads, k)); }
    }
    forall p {:trigger Key(data, p)} | 0 <= p < m + 1 && p + 3 <= |data|
      ensures p in ListOf(r, Key(data, p))
    {
      if p == m {
        assert (l + [m])[|l|] == m;
      } else {
        assert p in ListOf(heads, Key(data, p));
      }
    }
  }

  lemma ListingSnoc(data: seq<Byte>, m: nat, l: seq<nat>)
    requires m + 3 <= |data| && Listing(data, m, Key(data, m), l)
    ensures Listing(data, m + 1, Key(data, m), l + [m])
  {
    hide Key;
    var l' := l + [m];
    forall j {:trigger l'[j]} | 0 <= j < |l'|
      ensures l'[j] < m + 1 && l'[j] + 3 <= |data| && Key(data, l'[j]) == Key(data, m)
    {
      if j < |l| { assert l'[j] == l[j]; }
    }
    forall j, k | 0 <= j < k < |l'| ensures l'[j] < l'[k] { assert l'[j] == l[j]; }
  }

  lemma ListingMore(data: seq<Byte>, m: nat, key: seq<Byte>, l: seq<nat>)
    requires Listing(data, m, key, l)
    ensures Listing(data, m + 1, key, l)
  {
    hide Key;
  }

  /** What the search has established after looking at the positions from index k of the list on. */
  ghost predicate Searched(data: seq<Byte>, i: nat, l: seq<nat>, k: nat, len: nat, dist: nat)
    requires i <= |data|
  {
    && (len == 0 || (3 <= len && 1 <= dist <= i && dist <= 4096 && MatchLen(data, i - dist, i) == len))
    && forall j {:trigger l[j]} :: k <= j < |l| && InWindow(l[j], i) ==>
      MatchLen(data, l[j], i) < len || (MatchLen(data, l[j], i) == len && l[j] <= i - dist)
  }

  /** The longest match among the positions of the list, nearest first. */
  method Search(data: seq<Byte>, i: nat, l: seq<nat>) returns (len: nat, dist: nat)
    requires i + 3 <= |data| && Listing(data, i, Key(data, i), l)
    ensures Searched(data, i, l, 0, len, dist)
  {
    hide MatchLen, Key, InWindow;
    len, dist := 0, 0;
    var idx: nat := |l|;
    while idx > 0
      invariant idx <= |l| && Searched(data, i, l, idx, len, dist)
      invariant len > 0 ==> forall j {:trigger l[j]} :: 0 <= j < idx ==> l[j] < i - dist
    {
      var pos := l[idx - 1];
      var d := i - pos;
      if d > 4096 {
        TooFar(data, i, l, idx);
        return;
      }
      var n := Measure(data, i, pos);
      if n > len {
        len, dist := n, d;
        if n == 18 {
          FullMatch(data, i, l, idx - 1, dist);
          return;
        }
      }
      idx := idx - 1;
    }
  }

  /** How far the match at a position with the same key goes. */
  method Measure(data: seq<Byte>, i: nat, pos: nat) returns (n: nat)
    requires pos < i && i + 3 <= |data| && Key(data, pos) == Key(data, i)
    ensures n == MatchLen(data, pos, i) && 3 <= n <= 18
  {
    MatchesThree(data, pos, i);
    MatchFromSpec(data, pos, i, 0);
    n := 3;
    MatchExtends(data, pos, i, 3);
    while n < Limit(data, i) && data[pos + n] == data[i + n]
      invariant 3 <= n <= Limit(data, i) && MatchFrom(data, pos, i, n) == MatchLen(data, pos, i)
    {
      n := n + 1;
    }
  }

  lemma TooFar(data: seq<Byte>, i: nat, l: seq<nat>, idx: nat)
    requires 0 < idx <= |l| && l[idx - 1] < i && i - l[idx - 1] > 4096 && forall j, k :: 0 <= j < k < |l| ==>
      l[j] < l[k]
    ensures forall j {:trigger l[j]} :: 0 <= j < idx ==> !InWindow(l[j], i)
  {
    forall j {:trigger l[j]} | 0 <= j < idx ensures !InWindow(l[j], i) { if j < idx - 1 { assert l[j] < l[idx - 1]; } }
  }

  lemma FullMatch(data: seq<Byte>, i: nat, l: seq<nat>, k: nat, dist: nat)
    requires i + 3 <= |data| && k < |l| && l[k] < i && dist == i - l[k] <= 4096 && MatchLen(data, l[k], i) == 18
    requires forall j, k :: 0 <= j < k < |l| ==> l[j] < l[k]
    requires forall j {:trigger l[j]} :: k < j < |l| && InWindow(l[j], i) ==> MatchLen(data, l[j], i) < 18
    ensures Searched(data, i, l, 0, 18, dist)
  {}

  /** Searching the list of the key is searching the whole window. */
  lemma WholeWindow(data: seq<Byte>, i: nat, heads: map<seq<Byte>, seq<nat>>, len: nat, dist: nat)
    requires i + 3 <= |data| && Indexed(data, i, heads) && Searched(data, i, ListOf(heads, Key(data, i)), 0, len, dist)
    ensures len >= 3 ==> Best(data, i, Copy(dist, len))
    ensures len < 3 ==> Best(data, i, Lit(data[i]))
  {
    forall p | InWindow(p, i) && MatchLen(data, p, i) >= 3
      ensures len >= 3 && (MatchLen(data, p, i) < len || (MatchLen(data, p, i) == len && p <= i - dist))
    {
      Found(data, i, heads, p, len, dist);
    }
    if len >= 3 { MatchFromSpec(data, i - dist, i, 0); }
  }

  lemma Found(data: seq<Byte>, i: nat, heads: map<seq<Byte>, seq<nat>>, p: nat, len: nat, dist: nat)
    requires i + 3 <= |data| && Indexed(data, i, heads) && Searched(data, i, ListOf(heads, Key(data, i)), 0, len, dist)
    requires InWindow(p, i) && MatchLen(data, p, i) >= 3
    ensures len >= 3 && (MatchLen(data, p, i) < len || (MatchLen(data, p, i) == len && p <= i - dist))
  {
    hide MatchLen;
    MatchesThree(data, p, i);
    var l := ListOf(heads, Key(data, i));
    assert Key(data, p) == Key(data, i);
    assert p in l;
    var j :| 0 <= j < |l| && l[j] == p;
    assert InWindow(l[j], i);
  }

  lemma NoRoom(data: seq<Byte>, i: nat)
    requires i < |data| < i + 3
    ensures Best(data, i, Lit(data[i]))
  {}

  method Compress(data: seq<Byte>) returns (r: seq<Byte>, ghost its: seq<Item>)
    ensures Packs(data, its, r) && Greedy(data, 0, its)
  {
    hide Packing, Covers, Best, Indexed, Searched, Fitting, Listing, Greedy, Total, Wire, Valid, Expand, Fits, MatchLen;
    var out: seq<Byte>, items: seq<Byte>, flags: nat, nf: nat := [], [], 0, 0;
    var heads: map<seq<Byte>, seq<nat>> := map[];
    ghost var a: seq<Item>, g: seq<Item> := [], [];
    Nothing(data, heads);
    var i: nat := 0;
    while i < |data|
      invariant i <= |data| && Packing(a, g, out, items, flags, nf) && Covers(data, i, a, g) && Indexed(data, i, heads)
      invariant Greedy(data, 0, a + g) && Total(a + g) == i
    {
      var it := Lit(data[i]);
      if i + 3 <= |data| {
        var key := data[i..i + 3];
        var l := ListOf(heads, key);
        ListOk(data, i, heads, key);
        var len, dist := Search(data, i, l);
        WholeWindow(data, i, heads, len, dist);
        if len >= 3 { it := Copy(dist, len); }
      } else {
        NoRoom(data, i);
      }
      assert Fitting(data, i, it) by { BestFits(data, i, it); }
      GreedySnoc(data, 0, a + g, it);
      FittingApplies(data, i, it);
      out, items, flags, nf, a, g := PutItem(out, items, flags, nf, it, data, i, a, g);
      var step := StepOf(it);
      for k := 0 to step
        invariant Indexed(data, i + k, heads)
      {
        heads := AddKey(data, i + k, heads);
      }
      i := i + step;
    }
    r := Flush(out, items, flags, nf, a, g);
    its := a + g;
    Covered(data, a, g);
  }

  lemma BestFits(data: seq<Byte>, i: nat, it: Item)
    requires Best(data, i, it)
    ensures Fitting(data, i, it)
  {}

  lemma ListOk(data: seq<Byte>, i: nat, heads: map<seq<Byte>, seq<nat>>, key: seq<Byte>)
    requires Indexed(data, i, heads)
    ensures Listing(data, i, key, ListOf(heads, key))
  {}

  lemma Nothing(data: seq<Byte>, heads: map<seq<Byte>, seq<nat>>)
    requires heads == map[]
    ensures Packing([], [], [], [], 0, 0) && Covers(data, 0, [], []) && Indexed(data, 0, heads)
        && Greedy(data, 0, [] + []) && Total([] + []) == 0
  {
    assert data[..0] == [];
    var none: seq<Item> := [];
    assert none + none == none;
  }

  // ----- the packer's own decoder -----

  /** A Python subscript: negative ones count from the end; anything else out of range raises. */
  function Subscript(s: seq<Byte>, i: int): (r: int)
    ensures r >= 0 ==> r < |s| && s[r] in s
  {
    if 0 <= i < |s| then i else if -|s| <= i < 0 then |s| + i else -1
  }

  /** Copies from position start on; a negative position is one behind the end of what there is by then. */
  function CopyFrom(out: seq<Byte>, start: int, len: nat): (r: seq<Byte>)
    requires -|out| <= start < |out|
    decreases len
  {
    if len == 0 then out
    else CopyFrom(out + [out[if start >= 0 then start else |out| + start]], start + 1, len - 1)
  }

  lemma {:induction false} CopyInside(out: seq<Byte>, dist: nat, len: nat)
    requires 1 <= dist <= |out|
    ensures CopyFrom(out, |out| - dist, len) == CopyOut(out, dist, len)
    decreases len
  {
    if len > 0 { CopyInside(out + [out[|out| - dist]], dist, len - 1); }
  }

  /** What comes of a stream: a subscript out of range, or some bytes; inside: no reference reached back
      further than to the first byte. */
  datatype Run = Raises | Ends(out: seq<Byte>, inside: bool)

  function Running(src: seq<Byte>, si: nat, out: seq<Byte>, inside: bool, total: nat): Run
    requires si <= |src|
    decreases |src| - si, 0
  {
    if |out| >= total then Ends(out, inside)
    else if si == |src| then Raises
    else RunItems(src, si + 1, src[si], 0, out, inside, total)
  }

  function RunItems(src: seq<Byte>, si: nat, flags: Byte, bit: nat, out: seq<Byte>, inside: bool, total: nat): Run
    requires si <= |src| && bit <= 8
    decreases |src| - si, 9 - bit
  {
    if bit == 8 || |out| >= total then Running(src, si, out, inside, total)
    else if And(flags, Pow2(bit)) != 0 then
      if si == |src| then Raises else RunItems(src, si + 1, flags, bit + 1, out + [src[si]], inside, total)
    else if si + 1 >= |src| then Raises
    else
      var code := Joined(src[si], src[si + 1]);
      var start := |out| - CodeDist(code);
      if start < -|out| then Raises
      else RunItems(src, si + 2, flags, bit + 1, CopyFrom(out, start, CodeLen(code)), inside && start >= 0, total)
  }

  lemma {:induction false} OutsideStays(src: seq<Byte>, si: nat, flags: Byte, bit: nat, out: seq<Byte>, total: nat)
    requires si <= |src| && bit <= 8
    ensures var r := RunItems(src, si, flags, bit, out, false, total);
      r.Ends? ==> !r.inside
    decreases |src| - si, 9 - bit
  {
    hide And, Pow2, Joined, CodeLen, CopyFrom;
    if bit == 8 || |out| >= total {
      if |out| < total && si < |src| { OutsideStays(src, si + 1, src[si], 0, out, total); }
    } else if And(flags, Pow2(bit)) != 0 {
      if si < |src| { OutsideStays(src, si + 1, flags, bit + 1, out + [src[si]], total); }
    } else if si + 1 < |src| {
      var code := Joined(src[si], src[si + 1]);
      var start := |out| - CodeDist(code);
      if start >= -|out| {
        OutsideStays(src, si + 2, flags, bit + 1, CopyFrom(out, start, CodeLen(code)), total);
      }
    }
  }

  /** The two decoders side by side. */
  predicate Alike(a: Outcome, b: Run, total: nat) {
    a == if b.Ends? && b.inside && |b.out| == total then Unpacked(b.out) else Corrupt
  }

  lemma {:induction false} ItemsAlike(src: seq<Byte>, si: nat, flags: Byte, bit: nat, out: seq<Byte>, total: nat)
    requires si <= |src| && bit <= 8 && |out| <= total
    ensures Alike(Items(src, si, flags, bit, out, total), RunItems(src, si, flags, bit, out, true, total), total)
    decreases |src| - si, 9 - bit
  {
    hide And, Pow2, Joined, CopyFrom, CopyOut;
    if bit == 8 || |out| == total {
      if |out| < total && si < |src| { ItemsAlike(src, si + 1, src[si], 0, out, total); }
    } else if And(flags, Pow2(bit)) != 0 {
      if si < |src| { ItemsAlike(src, si + 1, flags, bit + 1, out + [src[si]], total); }
    } else if si + 1 < |src| {
      var code := Joined(src[si], src[si + 1]);
      var dist, len := CodeDist(code), CodeLen(code);
      if dist <= |out| {
        CopyInside(out, dist, len);
        var next := CopyOut(out, dist, len);
        if |next| <= total {
          ItemsAlike(src, si + 2, flags, bit + 1, next, total);
        } else {
          assert RunItems(src, si + 2, flags, bit + 1, next, true, total) == Ends(next, true);
        }
      } else if |out| - dist >= -|out| {
        OutsideStays(src, si + 2, flags, bit + 1, CopyFrom(out, |out| - dist, len), total);
      }
    }
  }

  /** The checking decoder accepts exactly the streams that end here with the right number of bytes and
      without reaching back too far, and then both give the same. */
  lemma DecodersAgree(src: seq<Byte>, total: nat)
    ensures Alike(Unpack(src, 0, [], total), Running(src, 0, [], true, total), total)
  {
    if total > 0 && src != [] { ItemsAlike(src, 1, src[0], 0, [], total); }
  }

  method CopyItem(out: seq<Byte>, dist: nat, len: nat) returns (ok: bool, r: seq<Byte>)
    requires dist >= 1 && len >= 1
    ensures ok == (dist <= 2 * |out|)
    ensures ok ==> r == CopyFrom(out, |out| - dist, len)
  {
    r := out;
    var start := |out| - dist;
    for k := 0 to len
      invariant |r| == |out| + k && (k > 0 ==> dist <= 2 * |out|)
      invariant dist <= 2 * |out| ==> CopyFrom(r, start + k, len - k) == CopyFrom(out, start, len)
    {
      var at := Subscript(r, start + k);
      if at < 0 { return false, r; }
      r := r + [r[at]];
    }
    ok := true;
  }

  /** The bytes that come of the stream, or a failure. */
  method Decompress(src: seq<Byte>, total: nat) returns (ok: bool, out: seq<Byte>)
    ensures var r := Running(src, 0, [], true, total);
      ok == r.Ends? && (ok ==> out == r.out)
  {
    hide And, Pow2, Shl, Shr, Or, CopyFrom;
    ghost var want := Running(src, 0, [], true, total);
    ghost var inside := true;
    out := [];
    var i: nat := 0;
    ok := false;
    while |out| < total
      invariant i <= |src| && want == Running(src, i, out, inside, total)
      decreases |src| - i
    {
      if i >= |src| { return; }
      var flags := src[i];
      ghost var i0 := i;
      i := i + 1;
      var bit: nat := 0;
      while bit < 8 && |out| < total
        invariant i0 < i <= |src| && bit <= 8 && want == RunItems(src, i, flags, bit, out, inside, total)
        decreases 8 - bit
      {
        if And(flags, Pow2(bit)) != 0 {
          if i >= |src| { return; }
          out := out + [src[i]];
          i := i + 1;
        } else {
          if i + 1 >= |src| { return; }
          var code := Joined(src[i], src[i + 1]);
          i := i + 2;
          var dist := CodeDist(code);
          var done, r := CopyItem(out, dist, CodeLen(code));
          if !done { return; }
          inside := inside && dist <= |out|;
          out := r;
        }
        bit := bit + 1;
      }
    }
    ok := true;
  }

  /** The check made when the library is packed never fails. */
  method PackAndCheck(joined: seq<Byte>) returns (packed: seq<Byte>)
    ensures Unpack(packed, 0, [], |joined|) == Unpacked(joined) && |packed| <= |joined| + (|joined| + 7) / 8
  {
    ghost var its;
    packed, its := Compress(joined);
    PacksRoundTrip(joined, its, packed);
    var ok, back := Decompress(packed, |joined|);
    DecodersAgree(packed, |joined|);
    assert ok && back == joined;
  }
}
