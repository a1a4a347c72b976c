/** The standard library inside the compiler: its directory as the packer writes it, and the readers
    that find a module in it. */
module Blob {
  import opened Bits
  import opened Lzss
  import opened Words
  import Absorb
  import GenBlob

  type Bytes = seq<Byte>

  // ----- writing -----

  /** The bytes of all the sequences, in order. */
  function Concat(l: seq<Bytes>): Bytes { if l == [] then [] else l[0] + Concat(l[1..]) }

  const PREFIX: Bytes := [115, 116, 100, 47] // "std/"

  function NameBytes(names: seq<Bytes>): Bytes {
    if names == [] then [] else PREFIX + names[0] + [0] + NameBytes(names[1..])
  }

  /** Offset and length of every body, the first one at off. */
  function Index(bodies: seq<Bytes>, off: nat): Bytes {
    if bodies == [] then [] else Le(off, 4) + Le(|bodies[0]|, 2) + Index(bodies[1..], off + |bodies[0]|)
  }

  /** The numbers fit their fields. */
  predicate Representable(bodies: seq<Bytes>, off: nat) {
    bodies != [] ==> off < 0x1_0000_0000 && |bodies[0]| < 0x1_0000 && Representable(bodies[1..], off + |bodies[0]|)
  }

  function OffsetOf(bodies: seq<Bytes>, i: nat): nat
    requires i <= |bodies|
  {
    |Concat(bodies[..i])|
  }

  method Join(bodies: seq<Bytes>) returns (joined: Bytes)
    ensures joined == Concat(bodies)
  {
    joined := [];
    for i := 0 to |bodies|
      invariant joined + Concat(bodies[i..]) == Concat(bodies)
    {
      ConcatStep(bodies, i);
      assert joined + (bodies[i] + Concat(bodies[i + 1..])) == (joined + bodies[i]) + Concat(bodies[i + 1..]);
      joined := joined + bodies[i];
    }
    assert joined + [] == joined;
  }

  method WriteNames(names: seq<Bytes>) returns (r: Bytes)
    ensures r == NameBytes(names)
  {
    r := [];
    for i := 0 to |names|
      invariant r + NameBytes(names[i..]) == NameBytes(names)
    {
      var item := PREFIX + names[i] + [0];
      NamesStep(names, i);
      assert r + (item + NameBytes(names[i + 1..])) == (r + item) + NameBytes(names[i + 1..]);
      r := r + item;
    }
    assert r + [] == r;
  }

  lemma NamesStep(names: seq<Bytes>, i: nat)
    requires i < |names|
    ensures NameBytes(names[i..]) == PREFIX + names[i] + [0] + NameBytes(names[i + 1..])
  {
    assert names[i..][0] == names[i] && names[i..][1..] == names[i + 1..];
  }

  method WriteIndex(bodies: seq<Bytes>) returns (ok: bool, index: Bytes)
    ensures ok == Representable(bodies, 0) && (ok ==> index == Index(bodies, 0))
  {
    hide Le;
    index := [];
    var off: nat := 0;
    for i := 0 to |bodies|
      invariant Representable(bodies[i..], off) == Representable(bodies, 0) && index + Index(bodies[i..], off)
          == Index(bodies, 0)
    {
      assert bodies[i..][0] == bodies[i] && bodies[i..][1..] == bodies[i + 1..];
      if off >= 0x1_0000_0000 || |bodies[i]| >= 0x1_0000 { return false, []; }
      var record := Le(off, 4) + Le(|bodies[i]|, 2);
      assert index + (record + Index(bodies[i + 1..], off + |bodies[i]|)) == (index + record)
          + Index(bodies[i + 1..], off + |bodies[i]|);
      index := index + record;
      off := off + |bodies[i]|;
    }
    assert index + [] == index;
    ok := true;
  }

  /** The three files; not ok when a module is too long for its field. */
  method Bake(names: seq<Bytes>, bodies: seq<Bytes>) returns (ok: bool, packed: Bytes, namesBlob: Bytes, index: Bytes,
      total: nat)
    requires |names| == |bodies|
    ensures ok == Representable(bodies, 0)
    ensures ok ==> total == |Concat(bodies)| && namesBlob == NameBytes(names) && index == Index(bodies, 0)
    ensures ok ==> Unpack(packed, 0, [], total) == Unpacked(Concat(bodies))
  {
    var joined := Join(bodies);
    packed := GenBlob.PackAndCheck(joined);
    namesBlob := WriteNames(names);
    ok, index := WriteIndex(bodies);
    total := |joined|;
  }

  lemma ConcatStep(l: seq<Bytes>, i: nat)
    requires i < |l|
    ensures Concat(l[i..]) == l[i] + Concat(l[i + 1..])
  {
    assert l[i..][0] == l[i] && l[i..][1..] == l[i + 1..];
  }

  lemma {:induction false} ConcatSplit(l: seq<Bytes>, i: nat)
    requires i <= |l|
    ensures Concat(l) == Concat(l[..i]) + Concat(l[i..])
    decreases i
  {
    if i == 0 {
      assert l[..0] == [] && l[0..] == l;
    } else {
      assert l[..i][1..] == l[1..][..i - 1] && l[i..] == l[1..][i - 1..];
      ConcatSplit(l[1..], i - 1);
    }
  }

  /** A body lies at its offset. */
  lemma BodyAt(bodies: seq<Bytes>, i: nat)
    requires i < |bodies|
    ensures OffsetOf(bodies, i) + |bodies[i]| <= |Concat(bodies)|
    ensures Concat(bodies)[OffsetOf(bodies, i)..OffsetOf(bodies, i) + |bodies[i]|] == bodies[i]
  {
    ConcatSplit(bodies, i);
    ConcatStep(bodies, i);
    var pre, rest := Concat(bodies[..i]), Concat(bodies[i + 1..]);
    assert Concat(bodies) == pre + (bodies[i] + rest);
  }

  // ----- reading -----

  lemma {:induction false} IndexSplit(bodies: seq<Bytes>, off: nat, i: nat)
    requires i <= |bodies| && Representable(bodies, off)
    ensures Index(bodies, off) == Index(bodies[..i], off) + Index(bodies[i..], off + OffsetOf(bodies, i))
    ensures Representable(bodies[i..], off + OffsetOf(bodies, i))
    decreases i
  {
    hide Le, Index, Representable, OffsetOf;
    if i == 0 {
      assert bodies[..0] == [] && bodies[0..] == bodies;
      NoIndex(off);
      OffsetZero(bodies);
    } else {
      var b, after := bodies[1..], off + |bodies[0]|;
      IndexStep(bodies, off);
      IndexSplit(b, after, i - 1);
      OffsetStep(bodies, i);
      IndexStep(bodies[..i], off);
      assert bodies[..i][1..] == b[..i - 1] && bodies[i..] == b[i - 1..];
      Regroup(Le(off, 4), Le(|bodies[0]|, 2), Index(b[..i - 1], after), Index(b[i - 1..], after + OffsetOf(b, i - 1)));
    }
  }

  lemma Regroup(a: Bytes, b: Bytes, c: Bytes, d: Bytes)
    ensures a + b + (c + d) == a + b + c + d
  {}

  lemma NoIndex(off: nat)
    ensures Index([], off) == []
  {}

  lemma OffsetZero(bodies: seq<Bytes>)
    ensures OffsetOf(bodies, 0) == 0
  {}

  lemma OffsetStep(bodies: seq<Bytes>, i: nat)
    requires 0 < i <= |bodies|
    ensures OffsetOf(bodies, i) == |bodies[0]| + OffsetOf(bodies[1..], i - 1)
  {
    assert bodies[..i][1..] == bodies[1..][..i - 1];
  }

  lemma IndexStep(bodies: seq<Bytes>, off: nat)
    requires bodies != []
    ensures Index(bodies, off) == Le(off, 4) + Le(|bodies[0]|, 2) + Index(bodies[1..], off + |bodies[0]|)
    ensures Representable(bodies, off) ==> Representable(bodies[1..], off + |bodies[0]|)
  {}

  lemma IndexAt(bodies: seq<Bytes>, off: nat, i: nat)
    requires i < |bodies| && Representable(bodies, off)
    ensures 6 * i + 6 <= |Index(bodies, off)|
    ensures Index(bodies, off)[6 * i..6 * i + 6] == Le(off + OffsetOf(bodies, i), 4) + Le(|bodies[i]|, 2)
    ensures off + OffsetOf(bodies, i) < 0x1_0000_0000 && |bodies[i]| < 0x1_0000
  {
    hide Le;
    IndexSplit(bodies, off, i);
    IndexSize(bodies[..i], off);
    assert bodies[i..][0] == bodies[i];
    var o := off + OffsetOf(bodies, i);
    var pre, record, rest := Index(bodies[..i], off), Le(o, 4) + Le(|bodies[i]|, 2),
        Index(bodies[i..][1..], o + |bodies[i]|);
    assert Index(bodies, off) == pre + (record + rest);
    assert (pre + (record + rest))[6 * i..6 * i + 6] == record;
  }

  lemma {:induction false} IndexSize(bodies: seq<Bytes>, off: nat)
    ensures |Index(bodies, off)| == 6 * |bodies|
    decreases bodies
  {
    if bodies != [] { IndexSize(bodies[1..], off + |bodies[0]|); }
  }

  /** The position of the i-th name, and the first byte behind all names. */
  function NameStart(names: seq<Bytes>, i: nat): nat
    requires i <= |names|
  {
    |NameBytes(names[..i])|
  }

  lemma {:induction false} NamesSplit(names: seq<Bytes>, i: nat)
    requires i <= |names|
    ensures NameBytes(names) == NameBytes(names[..i]) + NameBytes(names[i..])
    decreases i
  {
    if i == 0 {
      assert names[..0] == [] && names[0..] == names;
    } else {
      assert names[..i][1..] == names[1..][..i - 1] && names[i..] == names[1..][i - 1..];
      NamesSplit(names[1..], i - 1);
    }
  }

  /** Name k, and the terminator behind it. */
  lemma NameAt(names: seq<Bytes>, k: nat)
    requires k < |names|
    ensures var s, e := NameStart(names, k), NameStart(names, k) + 4 + |names[k]|;
      e < |NameBytes(names)| && NameBytes(names)[s..e] == PREFIX + names[k] && NameBytes(names)[e] == 0
          && NameStart(names, k + 1) == e + 1
  {
    hide NameBytes;
    NamesSplit(names, k);
    NamesStep(names, k);
    var pre, item, rest := NameBytes(names[..k]), PREFIX + names[k], NameBytes(names[k + 1..]);
    assert NameBytes(names) == pre + item + [0] + rest;
    assert NameStart(names, k + 1) == |pre| + |item| + 1 by { NextStart(names, k); }
    Middle(pre, item, rest);
  }

  lemma Middle(pre: Bytes, item: Bytes, rest: Bytes)
    ensures (pre + item + [0] + rest)[|pre|..|pre| + |item|] == item && (pre + item + [0] + rest)[|pre| + |item|] == 0
  {}

  lemma NextStart(names: seq<Bytes>, k: nat)
    requires k < |names|
    ensures NameStart(names, k + 1) == NameStart(names, k) + 4 + |names[k]| + 1
  {
    hide NameBytes;
    var one: seq<Bytes> := [names[k]];
    assert names[..k + 1][..k] == names[..k] && names[..k + 1][k..] == one;
    NamesSplit(names[..k + 1], k);
    OneName(names[k]);
  }

  lemma OneName(name: Bytes)
    ensures |NameBytes([name])| == 4 + |name| + 1
  {
    var one: seq<Bytes> := [name];
    assert one[1..] == [];
  }

  /** No name contains a NUL. */
  predicate Named(names: seq<Bytes>) { forall i :: 0 <= i < |names| ==> 0 !in names[i] }

  class Library {
    const packed: Bytes
    const names: Bytes
    const index: Bytes
    const count: nat
    const total: nat
    var unpacked: array?<Byte>

    constructor (packed: Bytes, names: Bytes, index: Bytes, count: nat, total: nat)
      ensures this.packed == packed && this.names == names && this.index == index && this.count == count
          && this.total == total && unpacked == null
    {
      this.packed, this.names, this.index, this.count, this.total := packed, names, index, count, total;
      unpacked := null;
    }

    /** The files are those the packer writes for the modules. */
    ghost predicate Holds(modules: seq<Bytes>, bodies: seq<Bytes>) {
      && |modules| == |bodies| == count && Named(modules) && Representable(bodies, 0)
      && names == NameBytes(modules) && index == Index(bodies, 0) && total == |Concat(bodies)|
      && Unpack(packed, 0, [], total) == Unpacked(Concat(bodies)) && (packed == [] ==> total == 0)
    }

    ghost predicate Cached(bodies: seq<Bytes>)
      reads this, unpacked
    {
      unpacked != null ==> unpacked.Length >= total + 1 && unpacked[..total] == Concat(bodies)
    }

    /** Decodes once. There are no checks here: the stream is the packer's. */
    method Decoded(ghost modules: seq<Bytes>, ghost bodies: seq<Bytes>) returns (r: array<Byte>)
      requires Holds(modules, bodies) && Cached(bodies)
      modifies this
      ensures unpacked == r && r.Length >= total + 1 && r[..total] == Concat(bodies)
      ensures old(unpacked) != null ==> unpacked == old(unpacked)
    {
      if unpacked != null { return unpacked; }
      if |packed| == 0 {
        r := new Byte[1](_ => 0);
        unpacked := r;
        assert r[..0] == [];
        return;
      }
      r := Fill(packed, total, Concat(bodies));
      unpacked := r;
    }

    /** Where module i starts in the decoded text, or -1. */
    method Off(i: int, ghost bodies: seq<Bytes>) returns (r: int)
      requires |bodies| == count && Representable(bodies, 0) && index == Index(bodies, 0)
      ensures r == if 0 <= i < count then OffsetOf(bodies, i) else -1
    {
      hide Representable, Index, U32, U16, OffsetOf;
      if i < 0 || i >= count { return -1; }
      RecordAt(bodies, i);
      var at := i * 6;
      if at + 6 > |index| { return -1; }
      var p := index[at..at + 6];
      r := U32(p);
    }

    /** The length of module i, or 0. */
    method Len(i: int, ghost bodies: seq<Bytes>) returns (r: int)
      requires |bodies| == count && Representable(bodies, 0) && index == Index(bodies, 0)
      ensures r == if 0 <= i < count then |bodies[i]| else 0
    {
      hide Representable, Index, U32, U16, OffsetOf;
      if i < 0 || i >= count { return 0; }
      RecordAt(bodies, i);
      var at := i * 6;
      if at + 6 > |index| { return 0; }
      var p := index[at..at + 6][4..];
      r := U16(p);
    }

    /** Counts terminators up to the i-th name. */
    method Name(i: int, ghost modules: seq<Bytes>) returns (r: Bytes)
      requires names == NameBytes(modules) && Named(modules)
      ensures 0 <= i < |modules| ==> r == PREFIX + modules[i]
      ensures i < 0 || i >= |modules| ==> r == []
    {
      var k: nat, start: nat, j: nat := 0, 0, 0;
      assert modules[..0] == [];
      while j < |names|
        invariant k <= |modules| && (0 <= i ==> k <= i || k == 0) && j <= |names| && start == NameStart(modules, k) <= j
        invariant k < |modules| ==> j <= start + 4 + |modules[k]|
        invariant k == |modules| ==> start == |names|
        invariant 0 <= i < |modules| ==> k <= i
      {
        NameAt(modules, k);
        if names[j] == 0 {
          assert j == start + 4 + |modules[k]| by { NoNul(modules, k, j); }
          if k == i {
            r := names[start..j];
            return;
          }
          k := k + 1;
          start := j + 1;
          if k == |modules| { assert modules[..k] == modules; }
        }
        j := j + 1;
      }
      if 0 <= i < |modules| { NameAt(modules, k); }
      r := [];
    }

    /** The text of module i. */
    method Src(i: int, ghost modules: seq<Bytes>, ghost bodies: seq<Bytes>) returns (found: bool, r: Bytes)
      requires Holds(modules, bodies) && Cached(bodies)
      modifies this
      ensures found == (0 <= i < count) && (found ==> r == bodies[i]) && Cached(bodies)
    {
      hide Concat, Index, NameBytes, Representable, Lzss.Unpack, OffsetOf;
      var off := Off(i, bodies);
      if off < 0 { return false, []; }
      var buf := Decoded(modules, bodies);
      var n := Len(i, bodies);
      BodyAt(bodies, i);
      Within(buf[..], total, off, off + n);
      assert buf[..][..total] == buf[..total] && buf[..][off..off + n] == buf[off..off + n];
      found, r := true, buf[off..off + n];
    }
  }

  lemma Within(s: Bytes, total: nat, a: nat, b: nat)
    requires a <= b <= total <= |s|
    ensures s[a..b] == s[..total][a..b]
  {}

  /** The two fields of record i. */
  lemma RecordAt(bodies: seq<Bytes>, i: nat)
    requires i < |bodies| && Representable(bodies, 0)
    ensures 6 * i + 6 <= |Index(bodies, 0)|
    ensures var p := Index(bodies, 0)[6 * i..6 * i + 6]; U32(p) == OffsetOf(bodies, i) && U16(p[4..]) == |bodies[i]|
  {
    hide U32, U16, Index, Representable, Le, Bound;
    IndexAt(bodies, 0, i);
    var o, l := OffsetOf(bodies, i), |bodies[i]|;
    Bounds();
    ReadBack(o, 4, Le(l, 2));
    ReadBack(l, 2, []);
    assert (Le(o, 4) + Le(l, 2))[4..] == Le(l, 2) + [];
  }

  lemma NoNul(modules: seq<Bytes>, k: nat, j: nat)
    requires k < |modules| && Named(modules) && NameStart(modules, k) <= j <= NameStart(modules, k) + 4 + |modules[k]|
        && j < |NameBytes(modules)| && NameBytes(modules)[j] == 0
    ensures j == NameStart(modules, k) + 4 + |modules[k]|
  {
    NameAt(modules, k);
    var s, e := NameStart(modules, k), NameStart(modules, k) + 4 + |modules[k]|;
    var item := PREFIX + modules[k];
    forall q | s <= q < e ensures NameBytes(modules)[q] != 0 {
      assert NameBytes(modules)[q] == NameBytes(modules)[s..e][q - s] == item[q - s];
      if q - s >= 4 { assert item[q - s] == modules[k][q - s - 4]; }
    }
  }

  /** Decodes a stream that is known to be good, without looking at where it ends. */
  method Fill(src: Bytes, total: nat, ghost want: Bytes) returns (out: array<Byte>)
    requires Unpack(src, 0, [], total) == Unpacked(want)
    ensures fresh(out) && out.Length == total + 1 && out[..total] == want
  {
    hide And, Pow2, Shl, Shr, Or, CopyOut;
    out := new Byte[total + 1](_ => 0);
    var si: nat, oi: nat := 0, 0;
    assert out[..0] == [];
    while oi < total
      invariant si <= |src| && oi <= total && Unpacked(want) == Unpack(src, si, out[..oi], total)
      decreases |src| - si
    {
      var flags := src[si];
      ghost var si0 := si;
      si := si + 1;
      var bit: nat := 0;
      while bit < 8 && oi < total
        invariant si0 < si <= |src| && oi <= total && bit <= 8
            && Unpacked(want) == Items(src, si, flags, bit, out[..oi], total)
        decreases 8 - bit
      {
        ghost var was := out[..oi];
        if And(flags, Pow2(bit)) != 0 {
          out[oi] := src[si];
          assert out[..oi + 1] == was + [src[si]];
          si := si + 1;
          oi := oi + 1;
        } else {
          var code := Joined(src[si], src[si + 1]);
          si := si + 2;
          var dist, len := CodeDist(code), CodeLen(code);
          Absorb.CopyBack(out, oi, dist, len);
          oi := oi + len;
        }
        bit := bit + 1;
      }
    }
  }
}
