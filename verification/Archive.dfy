/** Files behind the compiler's executable image: a packed stream, an index, and a footer of 40 bytes. */
module Archive {
  import opened Common
  import opened Bits
  import opened Lzss
  import opened Words
  import Absorb

  type Bytes = seq<Byte>

  datatype File = File(name: Bytes, body: Bytes)

  datatype Entry = Entry(name: Bytes, off: nat, len: nat)

  const MAX_FILES: nat := 8192
  const FOOTER_LEN: nat := 40
  const MAGIC: Bytes := [81, 69, 76, 65, 65, 66, 83, 49] // "QELAABS1"
  const HALF: nat := 0x8000_0000_0000_0000

  // ----- order of names -----

  /** Byte order; a prefix comes first. */
  predicate Lt(a: Bytes, b: Bytes) {
    b != [] && (a == [] || a[0] < b[0] || (a[0] == b[0] && Lt(a[1..], b[1..])))
  }

  /** At place k the two first differ, and a is the smaller there or ends. */
  ghost predicate Below(a: Bytes, b: Bytes, k: nat) {
    k <= |a| && k < |b| && a[..k] == b[..k] && (k == |a| || a[k] < b[k])
  }

  lemma {:induction false} LtIff(a: Bytes, b: Bytes)
    ensures Lt(a, b) <==> exists k: nat :: Below(a, b, k)
    decreases a
  {
    if b == [] {
    } else if a == [] || a[0] < b[0] {
      assert Below(a, b, 0);
    } else {
      LtIff(a[1..], b[1..]);
      if k: nat :| Below(a, b, k) {
        assert k > 0 && a[..k][0] == a[0] && b[..k][0] == b[0];
        assert a[1..][..k - 1] == a[..k][1..] && b[1..][..k - 1] == b[..k][1..];
        assert Below(a[1..], b[1..], k - 1);
      }
      if a[0] == b[0] {
        if k: nat :| Below(a[1..], b[1..], k) {
          assert a[..k + 1] == [a[0]] + a[1..][..k] && b[..k + 1] == [b[0]] + b[1..][..k];
          assert Below(a, b, k + 1);
        }
      }
    }
  }

  lemma {:induction false} LtTotal(a: Bytes, b: Bytes)
    ensures Lt(a, b) || Lt(b, a) || a == b
    decreases a
  {
    if a != [] && b != [] && a[0] == b[0] {
      LtTotal(a[1..], b[1..]);
      if a[1..] == b[1..] { assert a == [a[0]] + a[1..] == b; }
    }
  }

  lemma {:induction false} LtTransitive(a: Bytes, b: Bytes, c: Bytes)
    requires Lt(a, b) && Lt(b, c)
    ensures Lt(a, c)
    decreases a
  {
    if a != [] && a[0] == b[0] == c[0] { LtTransitive(a[1..], b[1..], c[1..]); }
  }

  lemma {:induction false} LtIrreflexive(a: Bytes)
    ensures !Lt(a, a)
    decreases a
  {
    if a != [] { LtIrreflexive(a[1..]); }
  }

  /** Compares byte by byte. */
  method Less(a: Bytes, b: Bytes) returns (r: bool)
    ensures r == Lt(a, b)
  {
    var i: nat := 0;
    while i < |a| && i < |b|
      invariant i <= |a| && i <= |b| && Lt(a, b) == Lt(a[i..], b[i..])
    {
      assert a[i..][1..] == a[i + 1..] && b[i..][1..] == b[i + 1..];
      if a[i] != b[i] { return a[i] < b[i]; }
      i := i + 1;
    }
    r := |a| < |b|;
  }

  /** Names in order. */
  ghost predicate Sorted(es: seq<Entry>) { forall i, j :: 0 <= i < j < |es| ==> !Lt(es[j].name, es[i].name) }

  /** All but position j in order, and everything behind j after everything before it. */
  ghost predicate SortedBut(es: seq<Entry>, j: nat) {
    && (forall p, q :: 0 <= p < q < |es| && p != j && q != j ==> !Lt(es[q].name, es[p].name))
    && forall q :: j < q < |es| && j < |es| ==> !Lt(es[q].name, es[j].name)
  }

  /** Insertion sort in place. */
  method SortEntries(es: array<Entry>)
    modifies es
    ensures Sorted(es[..]) && multiset(es[..]) == multiset(old(es[..]))
  {
    var i := 1;
    while i < es.Length
      invariant 1 <= i && (i <= es.Length || es.Length == 0)
      invariant Sorted(es[..if i <= es.Length then i else es.Length]) && multiset(es[..]) == multiset(old(es[..]))
    {
      Insert(es, i);
      i := i + 1;
    }
    assert es[..es.Length] == es[..];
  }

  /** Moves entry i down to its place. */
  method Insert(es: array<Entry>, i: nat)
    requires 0 < i < es.Length && Sorted(es[..i])
    modifies es
    ensures Sorted(es[..i + 1]) && multiset(es[..]) == multiset(old(es[..]))
  {
    var j := i;
    StartInsert(es[..i + 1], i);
    while j > 0
      invariant j <= i && SortedBut(es[..i + 1], j) && multiset(es[..]) == multiset(old(es[..]))
    {
      var less := Less(es[j].name, es[j - 1].name);
      if !less { break; }
      ghost var was := es[..i + 1];
      es[j], es[j - 1] := es[j - 1], es[j];
      SwapDown(was, es[..i + 1], j);
      j := j - 1;
    }
    EndInsert(es[..i + 1], j);
  }

  lemma StartInsert(es: seq<Entry>, i: nat)
    requires |es| == i + 1 && Sorted(es[..i])
    ensures SortedBut(es, i)
  {
    forall p, q | 0 <= p < q < |es| && p != i && q != i
      ensures !Lt(es[q].name, es[p].name)
    {
      assert es[..i][p] == es[p] && es[..i][q] == es[q];
    }
  }

  lemma SwapDown(was: seq<Entry>, es: seq<Entry>, j: nat)
    requires 0 < j < |was| && SortedBut(was, j) && es == was[j := was[j - 1]][j - 1 := was[j]]
        && Lt(was[j].name, was[j - 1].name)
    ensures SortedBut(es, j - 1)
  {
    forall q | j - 1 < q < |es| ensures !Lt(es[q].name, es[j - 1].name) {
      if q == j {
        if Lt(was[j - 1].name, was[j].name) {
          LtTransitive(was[j].name, was[j - 1].name, was[j].name);
          LtIrreflexive(was[j].name);
        }
      }
    }
    forall p, q | 0 <= p < q < |es| && p != j - 1 && q != j - 1 ensures !Lt(es[q].name, es[p].name) {}
  }

  lemma EndInsert(es: seq<Entry>, j: nat)
    requires j < |es| && SortedBut(es, j) && (j == 0 || !Lt(es[j].name, es[j - 1].name))
    ensures Sorted(es)
  {
    forall p, q | 0 <= p < q < |es| ensures !Lt(es[q].name, es[p].name) {
      if q == j && p < j - 1 && Lt(es[j].name, es[p].name) {
        LtTotal(es[p].name, es[j - 1].name);
        if Lt(es[p].name, es[j - 1].name) { LtTransitive(es[j].name, es[p].name, es[j - 1].name); }
      }
    }
  }

  ghost predicate SortedFiles(fs: seq<File>) { forall i, j :: 0 <= i < j < |fs| ==> !Lt(fs[j].name, fs[i].name) }

  /** Two orders of the same distinctly named files, both sorted, are the same. */
  lemma {:induction false} SortedUnique(a: seq<File>, b: seq<File>)
    requires SortedFiles(a) && SortedFiles(b) && multiset(a) == multiset(b)
    requires forall i, j :: 0 <= i < j < |a| ==> a[i].name != a[j].name
    ensures a == b
    decreases |a|
  {
    SameSize(a, b);
    if a != [] {
      SameFirst(a, b);
      SameRest(a, b);
      assert forall i, j :: 0 <= i < j < |a| - 1 ==> a[1..][i] == a[i + 1] && a[1..][j] == a[j + 1];
      SortedRest(a);
      SortedRest(b);
      SortedUnique(a[1..], b[1..]);
      assert a == [a[0]] + a[1..] && b == [b[0]] + b[1..];
    }
  }

  lemma SortedRest(a: seq<File>)
    requires SortedFiles(a) && a != []
    ensures SortedFiles(a[1..])
  {}

  lemma SameFirst(a: seq<File>, b: seq<File>)
    requires a != [] && b != [] && SortedFiles(a) && SortedFiles(b) && multiset(a) == multiset(b)
    requires forall i, j :: 0 <= i < j < |a| ==> a[i].name != a[j].name
    ensures a[0] == b[0]
  {
    hide Lt;
    var x, y := a[0], b[0];
    assert x in multiset(b) && y in multiset(a);
    var i :| 0 <= i < |b| && b[i] == x;
    var j :| 0 <= j < |a| && a[j] == y;
    LtTotal(x.name, y.name);
  }

  lemma SameRest(a: seq<File>, b: seq<File>)
    requires a != [] && b != [] && a[0] == b[0] && multiset(a) == multiset(b)
    ensures multiset(a[1..]) == multiset(b[1..])
  {
    assert a == [a[0]] + a[1..] && b == [b[0]] + b[1..];
    assert multiset(a[1..]) == multiset(a) - multiset{a[0]} && multiset(b[1..]) == multiset(b) - multiset{b[0]};
  }

  lemma SameSize(a: seq<File>, b: seq<File>)
    requires multiset(a) == multiset(b)
    ensures |a| == |b|
  {
    assert |multiset(a)| == |a| && |multiset(b)| == |b|;
  }

  // ----- the image -----

  /** The bytes of all files, in order. */
  function Contents(fs: seq<File>): Bytes { if fs == [] then [] else fs[0].body + Contents(fs[1..]) }

  /** Where file i starts. */
  function OffsetOf(fs: seq<File>, i: nat): nat
    requires i <= |fs|
  {
    |Contents(fs[..i])|
  }

  function EntriesOf(fs: seq<File>): (es: seq<Entry>)
    ensures |es| == |fs| && forall i :: 0 <= i < |fs| ==> es[i] == Entry(fs[i].name, OffsetOf(fs, i), |fs[i].body|)
  {
    seq(|fs|, i requires 0 <= i < |fs| => Entry(fs[i].name, OffsetOf(fs, i), |fs[i].body|))
  }

  function Record(e: Entry): (r: Bytes)
    ensures |r| == 20 + |e.name|
  {
    Le(|e.name|, 4) + Le(e.off, 8) + Le(e.len, 8) + e.name
  }

  function IndexOf(es: seq<Entry>): Bytes { if es == [] then [] else Record(es[0]) + IndexOf(es[1..]) }

  function Footer(base: nat, packed: nat, raw: nat, count: nat, index: nat): (r: Bytes)
    ensures |r| == FOOTER_LEN
  {
    MAGIC + Le(base, 8) + Le(packed, 8) + Le(raw, 8) + Le(count, 4) + Le(index, 4)
  }

  /** The image that carries the files in this order; with none it is the plain one. */
  function Image(base: Bytes, fs: seq<File>, packed: Bytes): Bytes {
    var index := IndexOf(EntriesOf(fs));
    if fs == [] then base else base + packed + index + Footer(|base|, |packed|, |Contents(fs)|, |fs|, |index|)
  }

  /** Stray: the footer passes its checks although its pieces do not lie in the image, and the loader
      goes on with memory outside of it. NoRoom: it writes the data where there is no room for it. */
  datatype Loaded =
    | Plain(base: nat)
    | Archived(base: nat, raw: Bytes, files: seq<Entry>)
    | BadFooter
    | BadData
    | BadIndex
    | Stray
    | NoRoom

  /** The fields of a footer. */
  datatype Trailer = Trailer(base: nat, packed: nat, raw: nat, count: nat, index: nat)

  function TrailerOf(f: Bytes): Trailer
    requires |f| == FOOTER_LEN
  {
    Trailer(U64(f[8..]), U64(f[16..]), U64(f[24..]), U32(f[32..]), U32(f[36..]))
  }

  function Extent(t: Trailer): nat { t.base + t.packed + t.index + FOOTER_LEN }

  /** The checks on the footer of an image of n bytes. The sum is a signed 64-bit number. */
  predicate Accepted(t: Trailer, n: nat) {
    t.base < HALF && t.packed < HALF && t.raw < HALF && t.count <= MAX_FILES && Wrap(Extent(t)) == Wrap(n)
  }

  /** The check on an entry; the sum is a signed 64-bit number. */
  predicate Allowed(off: nat, len: nat, rawlen: nat) {
    off < HALF && len < HALF && Wrap(off + len) <= rawlen
  }

  predicate Inside(e: Entry, raw: Bytes) { e.off + e.len <= |raw| }

  /** The entries in the index bytes p, exactly count of them. */
  function ParseIndex(p: Bytes, count: nat, rawlen: nat): Option<seq<Entry>>
    decreases count
  {
    if count == 0 then if p == [] then Some([]) else None
    else if |p| < 20 then None
    else
      var nl, off, len := U32(p), U64(p[4..]), U64(p[12..]);
      if nl < 1 || 20 + nl > |p| || !Allowed(off, len, rawlen) then None
      else
        match ParseIndex(p[20 + nl..], count - 1, rawlen)
        case None => None
        case Some(es) => Some([Entry(p[20..20 + nl], off, len)] + es)
  }

  function Load(image: Bytes): Loaded {
    if |image| < FOOTER_LEN then Plain(|image|)
    else
      var f := image[|image| - FOOTER_LEN..];
      if f[..8] != MAGIC then Plain(|image|)
      else
        var t := TrailerOf(f);
        if !Accepted(t, |image|) then BadFooter
        else if Extent(t) != |image| then Stray
        else
          LoadParts(t, image[t.base..t.base + t.packed], image[t.base + t.packed..t.base + t.packed + t.index])
  }

  /** The data first, then the index. */
  function LoadParts(t: Trailer, packed: Bytes, index: Bytes): Loaded {
    match Absorb.Decoding(packed, t.raw)
    case NoRoom => NoRoom
    case Settled(Corrupt) => BadData
    case Settled(Unpacked(raw)) =>
      match ParseIndex(index, t.count, t.raw)
      case None => BadIndex
      case Some(es) => Archived(t.base, raw, es)
  }

  // ----- what the checks let through -----

  lemma WrapSmall(n: nat)
    requires n < 2 * HALF
    ensures Wrap(n) == if n < HALF then n else n - 2 * HALF
  {}

  /** A footer that passes its checks describes the image exactly when its sum does not wrap. */
  lemma FooterIff(t: Trailer, n: nat)
    requires Accepted(t, n) && n < HALF && t.index < 0x1_0000_0000
    ensures Extent(t) == n <==> Extent(t) < HALF
  {
    WrapSmall(n);
    if Extent(t) < HALF { WrapSmall(Extent(t)); }
  }

  /** Loading leaves the image exactly when the checks pass on a sum that wraps. */
  lemma StrayIff(image: Bytes)
    requires FOOTER_LEN <= |image| < HALF
    ensures var f := image[|image| - FOOTER_LEN..];
      Load(image) == Stray <==> f[..8] == MAGIC && Accepted(TrailerOf(f), |image|) && Extent(TrailerOf(f)) >= HALF
  {
    hide U32, U64, Unpack, ParseIndex, Wrap;
    var f := image[|image| - FOOTER_LEN..];
    U32IsNum(f[36..]);
    if Accepted(TrailerOf(f), |image|) { FooterIff(TrailerOf(f), |image|); }
  }

  /** Whatever stands before it, this footer passes its checks and points outside of the image. */
  lemma StrayFooter(body: Bytes, raw: nat, count: nat)
    requires |body| + 2 < 0x1_0000_0000 && raw < HALF && count <= MAX_FILES
    ensures Load(body + Footer(HALF - 1, HALF - 1, raw, count, |body| + 2)) == Stray
  {
    hide Footer, U32, U64, Unpack, ParseIndex;
    var f := Footer(HALF - 1, HALF - 1, raw, count, |body| + 2);
    var image := body + f;
    assert image[|image| - FOOTER_LEN..] == f;
    FooterBack(HALF - 1, HALF - 1, raw, count, |body| + 2);
    assert Extent(TrailerOf(f)) == |image| + 2 * HALF;
  }

  /** The data is written where there is no room exactly when its length is the greatest that passes the
      checks, in a footer that describes its image, and the stream starts with a literal. */
  lemma NoRoomIff(image: Bytes)
    requires FOOTER_LEN <= |image| < HALF
    ensures var f := image[|image| - FOOTER_LEN..];
      var t := TrailerOf(f);
      Load(image) == NoRoom <==>
        && f[..8] == MAGIC && Accepted(t, |image|) && Extent(t) == |image|
        && t.raw == HALF - 1 && Absorb.StartsLiteral(image[t.base..t.base + t.packed])
  {
    hide U32, U64, Unpack, ParseIndex, Wrap, Absorb.StartsLiteral, Absorb.Requested;
    var t := TrailerOf(image[|image| - FOOTER_LEN..]);
    if t.raw < HALF { Absorb.RequestedIff(t.raw); }
  }

  /** Behind any plain image: an archive of two bytes, the first of which says that a literal follows. */
  lemma NoRoomFooter(base: Bytes, flags: Byte, b: Byte)
    requires |base| < HALF && And(flags, Pow2(0)) != 0
    ensures Load(base + [flags, b] + Footer(|base|, 2, HALF - 1, 0, 0)) == NoRoom
  {
    hide Load, Footer, Unpack, ParseIndex, And, Wrap;
    LoadPieces(base, [flags, b], [], HALF - 1, 0);
    assert base + [flags, b] + [] == base + [flags, b];
    Absorb.RequestedIff(HALF - 1);
  }

  /** An entry that passes its check lies in the data exactly when its sum does not wrap. */
  lemma EntryIff(e: Entry, raw: Bytes)
    requires Allowed(e.off, e.len, |raw|) && |raw| < HALF
    ensures Inside(e, raw) <==> e.off + e.len < HALF
  {
    WrapSmall(e.off + e.len);
  }

  lemma {:induction false} ParsedAllowed(p: Bytes, count: nat, rawlen: nat)
    ensures ParseIndex(p, count, rawlen).Some? ==>
      forall e :: e in ParseIndex(p, count, rawlen).value ==> Allowed(e.off, e.len, rawlen)
    decreases count
  {
    hide U32, U64, Allowed;
    if count > 0 && |p| >= 20 && 20 + U32(p) <= |p| { ParsedAllowed(p[20 + U32(p)..], count - 1, rawlen); }
  }

  /** In every archive that loads, the entries that leave the data are those whose sum wraps. */
  lemma LoadedEntries(image: Bytes)
    requires Load(image).Archived?
    ensures var l := Load(image);
      |l.raw| < HALF && forall e :: e in l.files ==> (Inside(e, l.raw) <==> e.off + e.len < HALF)
  {
    hide U32, U64, Unpack, ParseIndex, Wrap, Inside;
    var l := Load(image);
    var t := TrailerOf(image[|image| - FOOTER_LEN..]);
    ParsedAllowed(image[t.base + t.packed..t.base + t.packed + t.index], t.count, t.raw);
    forall e | e in l.files ensures Inside(e, l.raw) <==> e.off + e.len < HALF { EntryIff(e, l.raw); }
  }

  /** Behind any plain image: an archive without data that loads, with an entry at 2^62 of 2^62 bytes. */
  lemma StrayEntry(base: Bytes, name: Bytes)
    requires |base| < HALF && 1 <= |name| < 0x1_0000_0000 - 20
    ensures var e := Entry(name, HALF / 2, HALF / 2);
      Load(base + Record(e) + Footer(|base|, 0, 0, 1, 20 + |name|)) == Archived(|base|, [], [e]) && !Inside(e, [])
  {
    hide Load, Footer, IndexOf, ParseIndex, Record;
    var e := Entry(name, HALF / 2, HALF / 2);
    LoadPieces(base, [], Record(e), 0, 1);
    assert base + [] + Record(e) == base + Record(e);
    OneRecord(e);
    WrapSmall(HALF);
    IndexBack([e], 0);
  }

  lemma OneRecord(e: Entry)
    ensures IndexOf([e]) == Record(e)
  {
    assert [e][1..] == [];
  }

  // ----- round trip -----

  /** Sizes fit their fields, and names are not empty. */
  predicate Limits(base: Bytes, fs: seq<File>, packed: Bytes) {
    && |base| < HALF && |packed| < HALF && |Contents(fs)| < HALF - 1 && |fs| <= MAX_FILES
        && |IndexOf(EntriesOf(fs))| < 0x1_0000_0000
    && forall i :: 0 <= i < |fs| ==> 1 <= |fs[i].name| < 0x1_0000_0000
  }

  lemma {:induction false} ContentsSplit(fs: seq<File>, i: nat)
    requires i <= |fs|
    ensures Contents(fs) == Contents(fs[..i]) + Contents(fs[i..])
    decreases i
  {
    if i == 0 {
      assert fs[..0] == [] && fs[0..] == fs;
    } else {
      assert fs[..i][1..] == fs[1..][..i - 1] && fs[i..] == fs[1..][i - 1..] && fs[..i][0] == fs[0];
      ContentsSplit(fs[1..], i - 1);
    }
  }

  /** A file's bytes lie at its offset. */
  lemma BodyAt(fs: seq<File>, i: nat)
    requires i < |fs|
    ensures OffsetOf(fs, i) + |fs[i].body| <= |Contents(fs)|
        && Contents(fs)[OffsetOf(fs, i)..OffsetOf(fs, i) + |fs[i].body|] == fs[i].body
  {
    ContentsSplit(fs, i);
    assert fs[i..][0] == fs[i];
    var pre, rest := Contents(fs[..i]), Contents(fs[i..][1..]);
    assert Contents(fs) == pre + (fs[i].body + rest);
  }

  /** One record, with more behind it. */
  lemma RecordBack(e: Entry, rest: Bytes)
    requires 1 <= |e.name| < 0x1_0000_0000 && e.off < HALF && e.len < HALF
    ensures var p := Record(e) + rest;
      |p| >= 20 + |e.name| && U32(p) == |e.name| && U64(p[4..]) == e.off && U64(p[12..]) == e.len
          && p[20..20 + |e.name|] == e.name && p[20 + |e.name|..] == rest
  {
    hide U32, U64, Le;
    var a, b, c := Le(|e.name|, 4), Le(e.off, 8), Le(e.len, 8);
    var p := Record(e) + rest;
    Bounds();
    assert p == a + (b + c + e.name + rest);
    assert p[4..] == b + (c + e.name + rest);
    assert p[12..] == c + (e.name + rest);
    ReadBack(|e.name|, 4, b + c + e.name + rest);
    ReadBack(e.off, 8, c + e.name + rest);
    ReadBack(e.len, 8, e.name + rest);
  }

  lemma {:induction false} IndexBack(es: seq<Entry>, rawlen: nat)
    requires forall i :: 0 <= i < |es| ==> 1 <= |es[i].name| < 0x1_0000_0000 && Allowed(es[i].off, es[i].len, rawlen)
    ensures ParseIndex(IndexOf(es), |es|, rawlen) == Some(es)
    decreases es
  {
    hide Record, U32, U64;
    if es != [] {
      RecordBack(es[0], IndexOf(es[1..]));
      IndexBack(es[1..], rawlen);
      assert [es[0]] + es[1..] == es;
    }
  }

  /** What loading comes to for an image put together from these pieces. */
  lemma LoadPieces(base: Bytes, packed: Bytes, index: Bytes, raw: nat, count: nat)
    requires |base| < HALF && |packed| < HALF && raw < HALF && count <= MAX_FILES && |index| < 0x1_0000_0000
    ensures var image := base + packed + index + Footer(|base|, |packed|, raw, count, |index|);
      && image[..|base|] == base
      && Load(image) == LoadParts(Trailer(|base|, |packed|, raw, count, |index|), packed, index)
  {
    hide Footer, U32, U64, LoadParts, Wrap;
    var f := Footer(|base|, |packed|, raw, count, |index|);
    var image := base + packed + index + f;
    assert image[|image| - FOOTER_LEN..] == f;
    FooterBack(|base|, |packed|, raw, count, |index|);
    assert image[|base|..|base| + |packed|] == packed;
    assert image[|base| + |packed|..|base| + |packed| + |index|] == index;
  }

  lemma FooterBack(base: nat, packed: nat, raw: nat, count: nat, index: nat)
    requires base < HALF && packed < HALF && raw < HALF && count < 0x1_0000_0000 && index < 0x1_0000_0000
    ensures var f := Footer(base, packed, raw, count, index);
      f[..8] == MAGIC && U64(f[8..]) == base && U64(f[16..]) == packed && U64(f[24..]) == raw && U32(f[32..]) == count
          && U32(f[36..]) == index
  {
    hide U32, U64, Le;
    var f := Footer(base, packed, raw, count, index);
    var b, p, r, c, i := Le(base, 8), Le(packed, 8), Le(raw, 8), Le(count, 4), Le(index, 4);
    Bounds();
    assert f[8..] == b + (p + r + c + i);
    assert f[16..] == p + (r + c + i);
    assert f[24..] == r + (c + i);
    assert f[32..] == c + i;
    assert f[36..] == i + [];
    ReadBack(base, 8, p + r + c + i);
    ReadBack(packed, 8, r + c + i);
    ReadBack(raw, 8, c + i);
    ReadBack(count, 4, i);
    ReadBack(index, 4, []);
  }

  /** Loading an image that carries files gives back the length of the plain image and every file. */
  lemma LoadImage(base: Bytes, fs: seq<File>, packed: Bytes)
    requires fs != [] && Limits(base, fs, packed) && Unpack(packed, 0, [], |Contents(fs)|) == Unpacked(Contents(fs))
    ensures Load(Image(base, fs, packed)) == Archived(|base|, Contents(fs), EntriesOf(fs))
    ensures Image(base, fs, packed)[..|base|] == base
  {
    hide Load, Footer, Unpack, IndexOf, EntriesOf, Contents, ParseIndex, Wrap;
    var es := EntriesOf(fs);
    var index := IndexOf(es);
    var raw := Contents(fs);
    LoadPieces(base, packed, index, |raw|, |fs|);
    Absorb.RequestedIff(|raw|);
    EntriesFit(fs);
    IndexBack(es, |raw|);
  }

  lemma EntriesFit(fs: seq<File>)
    requires |Contents(fs)| < HALF && forall i :: 0 <= i < |fs| ==> 1 <= |fs[i].name| < 0x1_0000_0000
    ensures var es := EntriesOf(fs);
      forall i :: 0 <= i < |es| ==> 1 <= |es[i].name| < 0x1_0000_0000 && Allowed(es[i].off, es[i].len, |Contents(fs)|)
  {
    forall i | 0 <= i < |fs| ensures Allowed(OffsetOf(fs, i), |fs[i].body|, |Contents(fs)|) { BodyAt(fs, i); }
  }

  // ----- the compiler's view -----

  /** Entries and data as collected for the files. */
  ghost predicate Describes(es: seq<Entry>, raw: Bytes, fs: seq<File>) {
    |es| == |fs| && forall i {:trigger es[i]} {:trigger fs[i]} :: 0 <= i < |es| ==> FileAt(es[i], raw, fs[i])
  }

  ghost predicate FileAt(e: Entry, raw: Bytes, f: File) {
    e.name == f.name && e.len == |f.body| && e.off + e.len <= |raw| && raw[e.off..e.off + e.len] == f.body
  }

  /** The file an entry inside the data stands for. */
  function FileOf(e: Entry, raw: Bytes): File {
    File(e.name, if Inside(e, raw) then raw[e.off..e.off + e.len] else [])
  }

  function FilesOf(es: seq<Entry>, raw: Bytes): (fs: seq<File>)
    ensures |fs| == |es| && forall i :: 0 <= i < |es| ==> fs[i] == FileOf(es[i], raw)
  {
    seq(|es|, i requires 0 <= i < |es| => FileOf(es[i], raw))
  }

  /** What a look-up hands out: nothing, a file's bytes, or a view of memory beyond the data. */
  datatype Found = Missing | Text(body: Bytes) | Beyond(off: nat, len: nat)

  function View(e: Entry, raw: Bytes): Found {
    if Inside(e, raw) then Text(raw[e.off..e.off + e.len]) else Beyond(e.off, e.len)
  }

  /** The first file of that name. */
  function Lookup(es: seq<Entry>, raw: Bytes, path: Bytes): Found {
    if es == [] then Missing else if es[0].name == path then View(es[0], raw) else Lookup(es[1..], raw, path)
  }

  /** What a compiler that runs from this image finds under a path. */
  function Seen(image: Bytes, path: Bytes): Found {
    match Load(image)
    case Archived(_, raw, es) => Lookup(es, raw, path)
    case _ => Missing
  }

  /** The places that are to be kept, in order. */
  ghost predicate Picks(keep: seq<bool>, idx: seq<nat>) {
    && (forall k, l :: 0 <= k < l < |idx| ==> idx[k] < idx[l])
    && forall i: nat :: i in idx <==> i < |keep| && keep[i]
  }

  /** The files at these places. */
  function Picked(es: seq<Entry>, raw: Bytes, idx: seq<nat>): (fs: seq<File>)
    requires forall k :: 0 <= k < |idx| ==> idx[k] < |es|
    ensures |fs| == |idx| && forall k :: 0 <= k < |fs| ==> fs[k] == FileOf(es[idx[k]], raw)
  {
    seq(|idx|, k requires 0 <= k < |idx| => FileOf(es[idx[k]], raw))
  }

  /** No two files, kept or added, have the same name. */
  ghost predicate NewNames(es: seq<Entry>, keep: seq<bool>, adds: seq<File>)
    requires |keep| == |es|
  {
    && (forall i, j :: 0 <= i < j < |es| && keep[i] && keep[j] ==> es[i].name != es[j].name)
    && (forall i, j :: 0 <= i < j < |adds| ==> adds[i].name != adds[j].name)
    && forall i, j :: 0 <= i < |es| && 0 <= j < |adds| && keep[i] ==> es[i].name != adds[j].name
  }

  lemma PicksMore(keep: seq<bool>, idx: seq<nat>, b: bool)
    requires Picks(keep, idx)
    ensures Picks(keep + [b], if b then idx + [|keep|] else idx)
  {
    var keep', idx' := keep + [b], if b then idx + [|keep|] else idx;
    forall k | 0 <= k < |idx| ensures idx[k] < |keep| { assert idx[k] in idx; }
    forall i: nat ensures i in idx' <==> i < |keep'| && keep'[i] {
      if i < |keep| { assert keep'[i] == keep[i] && (i in idx' <==> i in idx); }
    }
  }

  lemma PicksBound(keep: seq<bool>, idx: seq<nat>)
    requires Picks(keep, idx)
    ensures forall k :: 0 <= k < |idx| ==> idx[k] < |keep| && keep[idx[k]]
  {
    forall k | 0 <= k < |idx| ensures idx[k] < |keep| && keep[idx[k]] { assert idx[k] in idx; }
  }

  lemma {:induction false} LookupFinds(es: seq<Entry>, raw: Bytes, i: nat)
    requires i < |es| && forall j, k :: 0 <= j < k < |es| ==> es[j].name != es[k].name
    ensures Lookup(es, raw, es[i].name) == View(es[i], raw)
    decreases i
  {
    if i > 0 { LookupFinds(es[1..], raw, i - 1); }
  }

  lemma {:induction false} LookupMisses(es: seq<Entry>, raw: Bytes, path: Bytes)
    requires forall i :: 0 <= i < |es| ==> es[i].name != path
    ensures Lookup(es, raw, path) == Missing
    decreases es
  {
    if es != [] { LookupMisses(es[1..], raw, path); }
  }

  /** Rejected: the compiler stops with a message. Astray: it works on memory outside its data. */
  datatype Health = Sound | Rejected | Astray

  class Compiler {
    const image: Bytes
    var loaded: bool
    var health: Health
    var base: nat
    var raw: Bytes
    var files: seq<Entry>

    constructor (image: Bytes)
      ensures this.image == image && !loaded
    {
      this.image := image;
      loaded, health, base, raw, files := false, Sound, 0, [], [];
    }

    /** What has been loaded is what the image holds. */
    ghost predicate Current()
      reads this
    {
      loaded ==> base <= |image| && Holds(Load(image))
    }

    /** The fields are what a load yields. */
    ghost predicate Holds(l: Loaded)
      reads this
    {
      match l
      case Plain(b) => health == Sound && base == b && raw == [] && files == []
      case Archived(b, r, es) => health == Sound && base == b && raw == r && files == es
      case Stray => health == Astray
      case NoRoom => health == Astray
      case _ => health == Rejected
    }

    /** Reads the trailer once. */
    method EnsureLoaded()
      requires Current()
      modifies this
      ensures Current() && loaded
      ensures old(loaded) ==>
        health == old(health) && base == old(base) && raw == old(raw) && files == old(files)
    {
      hide U32, U64, Unpack, ParseIndex;
      if loaded { return; }
      loaded, health, base, raw, files := true, Sound, |image|, [], [];
      if |image| < FOOTER_LEN { return; }
      var f := image[|image| - FOOTER_LEN..];
      if f[..8] != MAGIC { return; }
      var b, packed, rawlen, count, index := U64(f[8..]), U64(f[16..]), U64(f[24..]), U32(f[32..]), U32(f[36..]);
      health := Rejected;
      if b >= HALF || packed >= HALF || rawlen >= HALF || count > MAX_FILES
          || Wrap(b + packed + index + FOOTER_LEN) != Wrap(|image|) { return; }
      if b + packed + index + FOOTER_LEN != |image| {
        health := Astray;
        return;
      }
      var r := Absorb.Decode(image[b..b + packed], rawlen);
      if r.NoRoom? {
        health := Astray;
        return;
      }
      if r.outcome.Corrupt? { return; }
      var ok, es := ReadIndex(image[b + packed..b + packed + index], count, rawlen);
      if !ok { return; }
      health, base, raw, files := Sound, b, r.outcome.data, es;
    }

    lemma SeenIs(path: Bytes)
      requires loaded && Current()
      ensures Seen(image, path) == if health == Sound then Lookup(files, raw, path) else Missing
    {
      hide Load;
    }

    /** Import resolution: a view of the named file. */
    method Find(path: Bytes) returns (r: Found)
      requires Current()
      modifies this
      ensures Current() && loaded && (health == Sound ==> r == Lookup(files, raw, path))
      ensures r == Seen(image, path)
    {
      hide Load, Holds, View, Seen;
      EnsureLoaded();
      SeenIs(path);
      r := Missing;
      if health != Sound { return; }
      var i: nat := 0;
      while i < |files|
        invariant i <= |files| && Lookup(files, raw, path) == Lookup(files[i..], raw, path) && Current()
      {
        assert files[i..][1..] == files[i + 1..];
        if files[i].name == path {
          r := View(files[i], raw);
          return;
        }
        i := i + 1;
      }
    }

    /** A new image: the files at the kept places and the added ones, sorted by name. A compiler that runs
        from it finds these and no others; with none it is the plain image again. */
    method Rewrite(keep: seq<bool>, adds: seq<File>)
        returns (end: Health, r: Bytes, ghost idx: seq<nat>, ghost fs: seq<File>, packed: Bytes)
      requires loaded && health == Sound && Current() && |keep| == |files|
      ensures end == Astray <==>
        || (exists i :: 0 <= i < |files| && keep[i] && !Inside(files[i], raw))
        || (end != Rejected && |Contents(fs)| >= HALF - 1)
      ensures end != Astray ==> Picks(keep, idx) && (forall k :: 0 <= k < |idx| ==> idx[k] < |files|)
      ensures end == Rejected ==> adds != [] && |idx| + |adds| > 8192
      ensures end == Sound ==> adds == [] || |idx| + |adds| <= 8192
      ensures end == Sound ==> multiset(fs) == multiset(Picked(files, raw, idx) + adds)
      ensures end == Sound ==> r == Image(image[..base], fs, packed) && SortedFiles(fs)
      ensures end == Sound ==> Absorb.Stream(Contents(fs), packed)
      ensures end == Sound ==> Unpack(packed, 0, [], |Contents(fs)|) == Unpacked(Contents(fs))
      ensures adds == [] && (forall i :: 0 <= i < |keep| ==> !keep[i]) ==> end == Sound && r == image[..base]
      ensures end == Sound && fs != [] && NewNames(files, keep, adds) && Limits(image[..base], fs, packed) ==>
        Carries(r, files, raw, keep, adds)
    {
      hide Lt, Load, Unpack, Holds, Picked, Contents, IndexOf, Record, Footer, FilesOf, Describes, Sorted, Inside,
          Absorb.Stream, Picks, NewNames, Limits, Carries, SortedFiles, Image;
      packed, r, idx, fs := [], [], [], [];
      var ok, es, buf;
      ok, es, buf, idx := Collect(files, raw, keep);
      if !ok { return Astray, r, idx, fs, packed; }
      ghost var kept := Picked(files, raw, idx);
      PicksSome(keep, idx);
      ok, es, buf := Append(es, buf, adds, kept);
      if !ok { return Rejected, r, idx, fs, packed; }
      var table := new Entry[|es|](i requires 0 <= i < |es| => es[i]);
      assert table[..] == es;
      SortEntries(table);
      fs := FilesOf(table[..], buf);
      SortedPictures(table[..], buf);
      SamePictures(table[..], es, buf);
      DescribesFiles(es, buf, kept + adds);
      StillInside(table[..], es, buf, kept + adds);
      var sorted, entries := Rebuild(table[..], buf);
      var check;
      check, packed := Absorb.PackAndCheck(sorted);
      NoFiles(kept + adds, fs);
      if check.NoRoom? { return Astray, r, idx, fs, packed; }
      var index := WriteIndex(entries);
      r := image[..base];
      if |entries| > 0 {
        r := r + packed + index + Footer(base, |packed|, |sorted|, |entries|, |index|);
      }
      ImageIs(image[..base], fs, packed);
      if fs != [] && NewNames(files, keep, adds) && Limits(image[..base], fs, packed) {
        CarriesAll(image[..base], files, raw, keep, idx, adds, fs, packed);
      }
      end := Sound;
    }
  }

  lemma ImageIs(base: Bytes, fs: seq<File>, packed: Bytes)
    ensures var index := IndexOf(EntriesOf(fs));
      Image(base, fs, packed) == if |EntriesOf(fs)| == 0 then base
        else base + packed + index + Footer(|base|, |packed|, |Contents(fs)|, |EntriesOf(fs)|, |index|)
  {}

  lemma PicksSome(keep: seq<bool>, idx: seq<nat>)
    requires Picks(keep, idx)
    ensures idx != [] ==> exists i :: 0 <= i < |keep| && keep[i]
  {
    if idx != [] { assert idx[0] in idx; }
  }

  lemma NoFiles(a: seq<File>, fs: seq<File>)
    requires multiset(fs) == multiset(a)
    ensures a == [] ==> fs == [] && Contents(fs) == []
  {
    SameSize(fs, a);
  }

  /** In the image r, every kept file is found with the bytes it had, every added file with its own, and
      nothing else is found. */
  ghost predicate Carries(r: Bytes, es: seq<Entry>, raw: Bytes, keep: seq<bool>, adds: seq<File>)
    requires |keep| == |es|
  {
    && (forall i :: 0 <= i < |es| && keep[i] ==>
          es[i].off + es[i].len <= |raw| && Seen(r, es[i].name) == Text(raw[es[i].off..es[i].off + es[i].len]))
    && (forall j :: 0 <= j < |adds| ==> Seen(r, adds[j].name) == Text(adds[j].body))
    && forall path {:trigger Seen(r, path)} :: Unnamed(es, keep, adds, path) ==> Seen(r, path) == Missing
  }

  /** No kept file and no added one has that name. */
  ghost predicate Unnamed(es: seq<Entry>, keep: seq<bool>, adds: seq<File>, path: Bytes)
    requires |keep| == |es|
  {
    (forall i :: 0 <= i < |es| && keep[i] ==> es[i].name != path) && forall f :: f in adds ==> f.name != path
  }

  /** The image r holds these files and no others. */
  ghost predicate Holding(r: Bytes, all: seq<File>) {
    && (forall f :: f in all ==> Seen(r, f.name) == Text(f.body))
    && forall path {:trigger Seen(r, path)} :: (forall f :: f in all ==> f.name != path) ==> Seen(r, path) == Missing
  }

  lemma ImageHolds(base: Bytes, all: seq<File>, fs: seq<File>, packed: Bytes)
    requires multiset(fs) == multiset(all) && fs != [] && Limits(base, fs, packed) && Distinct(all)
    requires Unpack(packed, 0, [], |Contents(fs)|) == Unpacked(Contents(fs))
    ensures Holding(Image(base, fs, packed), all)
  {
    hide Load, Unpack, Contents, Limits, Lookup, Image, EntriesOf;
    var r := Image(base, fs, packed);
    Permuted(all, fs);
    LoadImage(base, fs, packed);
    forall f | f in all ensures Seen(r, f.name) == Text(f.body) {
      assert f in multiset(fs);
      FindsFile(fs, f);
    }
    forall path {:trigger Seen(r, path)} | forall f :: f in all ==> f.name != path
      ensures Seen(r, path) == Missing
    {
      forall i | 0 <= i < |fs| ensures fs[i].name != path { assert fs[i] in multiset(all); }
      LookupMisses(EntriesOf(fs), Contents(fs), path);
    }
  }

  lemma HoldingCarries(r: Bytes, es: seq<Entry>, raw: Bytes, keep: seq<bool>, idx: seq<nat>, adds: seq<File>)
    requires |keep| == |es| && Picks(keep, idx) && forall k :: 0 <= k < |idx| ==> idx[k] < |es|
    requires forall i :: 0 <= i < |es| && keep[i] ==> Inside(es[i], raw)
    requires Holding(r, Picked(es, raw, idx) + adds)
    ensures Carries(r, es, raw, keep, adds)
  {
    hide Seen;
    var all := Picked(es, raw, idx) + adds;
    forall i | 0 <= i < |es| && keep[i]
      ensures Seen(r, es[i].name) == Text(raw[es[i].off..es[i].off + es[i].len])
    {
      assert i in idx;
      var k :| 0 <= k < |idx| && idx[k] == i;
      assert all[k] == FileOf(es[i], raw) && all[k] in all;
    }
    forall j | 0 <= j < |adds| ensures Seen(r, adds[j].name) == Text(adds[j].body) {
      assert all[|idx| + j] == adds[j] && adds[j] in all;
    }
    forall path {:trigger Seen(r, path)} | Unnamed(es, keep, adds, path) ensures Seen(r, path) == Missing {
      forall f | f in all ensures f.name != path { NamedIn(es, raw, keep, idx, adds, f); }
    }
  }

  lemma NamedIn(es: seq<Entry>, raw: Bytes, keep: seq<bool>, idx: seq<nat>, adds: seq<File>, f: File)
    requires |keep| == |es| && Picks(keep, idx) && forall k :: 0 <= k < |idx| ==> idx[k] < |es|
    requires f in Picked(es, raw, idx) + adds
    ensures f in adds || exists i :: 0 <= i < |es| && keep[i] && es[i].name == f.name
  {
    PicksBound(keep, idx);
  }

  lemma CarriesAll(base: Bytes, es: seq<Entry>, raw: Bytes, keep: seq<bool>, idx: seq<nat>, adds: seq<File>,
      fs: seq<File>, packed: Bytes)
    requires |keep| == |es| && Picks(keep, idx) && forall k :: 0 <= k < |idx| ==> idx[k] < |es|
    requires forall i :: 0 <= i < |es| && keep[i] ==> Inside(es[i], raw)
    requires multiset(fs) == multiset(Picked(es, raw, idx) + adds) && fs != [] && Limits(base, fs, packed)
    requires NewNames(es, keep, adds) && Unpack(packed, 0, [], |Contents(fs)|) == Unpacked(Contents(fs))
    ensures Carries(Image(base, fs, packed), es, raw, keep, adds)
  {
    hide Unpack, Contents, Limits, Image, Holding, Carries;
    DistinctPicked(es, raw, keep, idx, adds);
    ImageHolds(base, Picked(es, raw, idx) + adds, fs, packed);
    HoldingCarries(Image(base, fs, packed), es, raw, keep, idx, adds);
  }

  /** Distinct names, place by place. */
  ghost predicate Distinct(fs: seq<File>) { forall i, j :: 0 <= i < j < |fs| ==> fs[i].name != fs[j].name }

  lemma DistinctPicked(es: seq<Entry>, raw: Bytes, keep: seq<bool>, idx: seq<nat>, adds: seq<File>)
    requires |keep| == |es| && Picks(keep, idx) && NewNames(es, keep, adds)
    requires forall k :: 0 <= k < |idx| ==> idx[k] < |es|
    ensures Distinct(Picked(es, raw, idx) + adds)
  {
    PicksBound(keep, idx);
    var kept := Picked(es, raw, idx);
    var all := kept + adds;
    forall i, j | 0 <= i < j < |all| ensures all[i].name != all[j].name {
      if j < |kept| { assert idx[i] < idx[j]; }
    }
  }

  /** A rearrangement of distinctly named files is one of distinctly named files. */
  lemma Permuted(a: seq<File>, b: seq<File>)
    requires multiset(a) == multiset(b) && Distinct(a)
    ensures Distinct(b)
  {
    forall i, j | 0 <= i < j < |b| ensures b[i].name != b[j].name {
      assert b[i] in multiset(a) && b[j] in multiset(a);
      var k :| 0 <= k < |a| && a[k] == b[i];
      var l :| 0 <= l < |a| && a[l] == b[j];
      if b[i] == b[j] {
        Twice(b, i, j);
        Once(a, b[i]);
      }
    }
  }

  lemma Twice(b: seq<File>, i: nat, j: nat)
    requires i < j < |b| && b[i] == b[j]
    ensures multiset(b)[b[i]] >= 2
  {
    assert b == b[..j] + b[j..] && b[..j][i] == b[i] && b[j..][0] == b[j];
    assert b[i] in b[..j] && b[i] in b[j..];
  }

  lemma {:induction false} Once(a: seq<File>, f: File)
    requires Distinct(a)
    ensures multiset(a)[f] <= 1
    decreases a
  {
    if a != [] {
      assert forall i, j :: 0 <= i < j < |a| - 1 ==> a[1..][i] == a[i + 1] && a[1..][j] == a[j + 1];
      Once(a[1..], f);
      CountFirst(a, f);
      if a[0] == f { assert f !in a[1..]; }
    }
  }

  lemma CountFirst(a: seq<File>, f: File)
    requires a != []
    ensures multiset(a)[f] == multiset(a[1..])[f] + if a[0] == f then 1 else 0
  {
    assert a == [a[0]] + a[1..];
  }

  /** The image does not depend on the order in which the files are given. */
  lemma StableImage(base: Bytes, a: seq<File>, b: seq<File>, pa: Bytes, pb: Bytes)
    requires SortedFiles(a) && SortedFiles(b) && multiset(a) == multiset(b)
    requires forall i, j :: 0 <= i < j < |a| ==> a[i].name != a[j].name
    requires Absorb.Stream(Contents(a), pa) && Absorb.Stream(Contents(b), pb)
    ensures Image(base, a, pa) == Image(base, b, pb)
  {
    SortedUnique(a, b);
    Absorb.StreamUnique(Contents(a), pa, pb);
  }

  /** The kept files, collected; fails when one of them leaves the data. */
  method Collect(files: seq<Entry>, raw: Bytes, keep: seq<bool>)
      returns (ok: bool, es: seq<Entry>, buf: Bytes, ghost idx: seq<nat>)
    requires |keep| == |files|
    ensures ok <==> forall i :: 0 <= i < |files| && keep[i] ==> Inside(files[i], raw)
    ensures ok ==> Picks(keep, idx) && (forall k :: 0 <= k < |idx| ==> idx[k] < |files|)
    ensures ok ==> Describes(es, buf, Picked(files, raw, idx))
  {
    hide Describes, Picked, Inside, FileOf, Picks;
    es, buf, idx := [], [], [];
    NothingPicked(files, raw);
    for i := 0 to |files|
      invariant Picks(keep[..i], idx) && forall k :: 0 <= k < |idx| ==> idx[k] < |files|
      invariant Describes(es, buf, Picked(files, raw, idx))
      invariant forall k :: 0 <= k < i && keep[k] ==> Inside(files[k], raw)
    {
      PicksMore(keep[..i], idx, keep[i]);
      assert keep[..i + 1] == keep[..i] + [keep[i]];
      if keep[i] {
        var e := files[i];
        if !Inside(e, raw) { return false, es, buf, idx; }
        var body := BodyOf(e, raw);
        Collected(es, buf, Picked(files, raw, idx), FileOf(e, raw));
        PickedSnoc(files, raw, idx, i);
        es := es + [Entry(e.name, |buf|, e.len)];
        buf := buf + body;
        idx := idx + [i];
      }
    }
    assert keep[..|files|] == keep;
    ok := true;
  }

  lemma PickedSnoc(files: seq<Entry>, raw: Bytes, idx: seq<nat>, i: nat)
    requires i < |files| && forall k :: 0 <= k < |idx| ==> idx[k] < |files|
    ensures (forall k :: 0 <= k < |idx + [i]| ==> (idx + [i])[k] < |files|)
        && Picked(files, raw, idx + [i]) == Picked(files, raw, idx) + [FileOf(files[i], raw)]
  {
    assert forall k :: 0 <= k < |idx + [i]| ==> (idx + [i])[k] < |files|;
  }

  function BodyOf(e: Entry, raw: Bytes): (r: Bytes)
    requires Inside(e, raw)
    ensures FileOf(e, raw) == File(e.name, r) && |r| == e.len
  {
    raw[e.off..e.off + e.len]
  }

  lemma NothingPicked(files: seq<Entry>, raw: Bytes)
    ensures Picks([], []) && Describes([], [], Picked(files, raw, []))
  {}

  lemma Collected(es: seq<Entry>, buf: Bytes, fs: seq<File>, f: File)
    requires Describes(es, buf, fs)
    ensures Describes(es + [Entry(f.name, |buf|, |f.body|)], buf + f.body, fs + [f])
  {
    var es', buf', fs' := es + [Entry(f.name, |buf|, |f.body|)], buf + f.body, fs + [f];
    forall i | 0 <= i < |es'| ensures FileAt(es'[i], buf', fs'[i]) {
      if i < |es| {
        assert FileAt(es[i], buf, fs[i]);
        assert buf'[es[i].off..es[i].off + es[i].len] == buf[es[i].off..es[i].off + es[i].len];
      }
    }
  }

  /** Then the added ones. */
  method Append(es0: seq<Entry>, buf0: Bytes, adds: seq<File>, ghost kept: seq<File>) returns (ok: bool,
      es: seq<Entry>, buf: Bytes)
    requires Describes(es0, buf0, kept)
    ensures ok == (adds == [] || |kept| + |adds| <= MAX_FILES)
    ensures ok ==> Describes(es, buf, kept + adds)
  {
    es, buf := es0, buf0;
    assert kept + adds[..0] == kept;
    for i := 0 to |adds|
      invariant Describes(es, buf, kept + adds[..i]) && (i > 0 ==> |kept| + i <= MAX_FILES)
    {
      if |es| >= MAX_FILES { return false, es, buf; }
      Collected(es, buf, kept + adds[..i], adds[i]);
      assert kept + adds[..i] + [adds[i]] == kept + adds[..i + 1];
      es := es + [Entry(adds[i].name, |buf|, |adds[i].body|)];
      buf := buf + adds[i].body;
    }
    assert adds[..|adds|] == adds;
    ok := true;
  }

  lemma DescribesFiles(es: seq<Entry>, raw: Bytes, fs: seq<File>)
    requires Describes(es, raw, fs)
    ensures FilesOf(es, raw) == fs
  {
    forall i | 0 <= i < |fs| ensures FilesOf(es, raw)[i] == fs[i] { assert FileAt(es[i], raw, fs[i]); }
  }

  lemma SortedPictures(es: seq<Entry>, raw: Bytes)
    requires Sorted(es)
    ensures SortedFiles(FilesOf(es, raw))
  {}

  /** Reordered entries stand for reordered files. */
  lemma {:induction false} SamePictures(a: seq<Entry>, b: seq<Entry>, raw: Bytes)
    requires multiset(a) == multiset(b)
    ensures multiset(FilesOf(a, raw)) == multiset(FilesOf(b, raw))
    decreases |a|
  {
    assert |multiset(a)| == |a| && |multiset(b)| == |b|;
    if a != [] {
      assert a[0] in multiset(b);
      var i :| 0 <= i < |b| && b[i] == a[0];
      WithoutOne(a, b, i);
      SamePictures(a[1..], b[..i] + b[i + 1..], raw);
      PicturesAround(a, b, i, raw);
    }
  }

  lemma WithoutOne(a: seq<Entry>, b: seq<Entry>, i: nat)
    requires a != [] && i < |b| && b[i] == a[0] && multiset(a) == multiset(b)
    ensures multiset(a[1..]) == multiset(b[..i] + b[i + 1..])
  {
    assert a[1..] == a[..0] + a[1..];
    Without(a, 0);
    Without(b, i);
    assert multiset(a) - multiset{a[0]} == multiset(b) - multiset{b[i]};
  }

  lemma Without(es: seq<Entry>, i: nat)
    requires i < |es|
    ensures multiset(es[..i] + es[i + 1..]) == multiset(es) - multiset{es[i]}
  {
    assert es == es[..i] + [es[i]] + es[i + 1..];
  }

  lemma PicturesAround(a: seq<Entry>, b: seq<Entry>, i: nat, raw: Bytes)
    requires a != [] && i < |b| && b[i] == a[0] && multiset(FilesOf(a[1..], raw))
        == multiset(FilesOf(b[..i] + b[i + 1..], raw))
    ensures multiset(FilesOf(a, raw)) == multiset(FilesOf(b, raw))
  {
    var f := FileOf(a[0], raw);
    var p, q := FilesOf(b[..i], raw), FilesOf(b[i + 1..], raw);
    assert FilesOf(a, raw) == [f] + FilesOf(a[1..], raw);
    assert FilesOf(b, raw) == p + [f] + q;
    assert FilesOf(b[..i] + b[i + 1..], raw) == p + q;
  }

  lemma StillInside(a: seq<Entry>, es: seq<Entry>, raw: Bytes, fs: seq<File>)
    requires multiset(a) == multiset(es) && Describes(es, raw, fs)
    ensures forall i {:trigger a[i]} :: 0 <= i < |a| ==> a[i].off + a[i].len <= |raw|
  {
    forall i {:trigger a[i]} | 0 <= i < |a| ensures a[i].off + a[i].len <= |raw| {
      assert a[i] in multiset(es);
      var j :| 0 <= j < |es| && es[j] == a[i];
      assert FileAt(es[j], raw, fs[j]);
    }
  }

  /** The data again, in the order of the entries. */
  method Rebuild(es: seq<Entry>, raw: Bytes) returns (sorted: Bytes, entries: seq<Entry>)
    requires forall i {:trigger es[i]} :: 0 <= i < |es| ==> es[i].off + es[i].len <= |raw|
    ensures sorted == Contents(FilesOf(es, raw)) && entries == EntriesOf(FilesOf(es, raw))
  {
    sorted, entries := [], [];
    ghost var fs := FilesOf(es, raw);
    assert fs[..0] == [];
    for i := 0 to |es|
      invariant sorted == Contents(fs[..i]) && |entries| == i && forall j :: 0 <= j < i ==>
        entries[j] == EntriesOf(fs)[j]
    {
      ContentsSnoc(fs, i);
      entries := entries + [Entry(es[i].name, |sorted|, es[i].len)];
      sorted := sorted + raw[es[i].off..es[i].off + es[i].len];
    }
    assert fs[..|es|] == fs;
  }

  lemma ContentsSnoc(fs: seq<File>, i: nat)
    requires i < |fs|
    ensures Contents(fs[..i + 1]) == Contents(fs[..i]) + fs[i].body
  {
    ContentsSplit(fs[..i + 1], i);
    assert fs[..i + 1][..i] == fs[..i] && fs[..i + 1][i..] == [fs[i]];
    var one := [fs[i]];
    assert one[1..] == [] && Contents(one) == one[0].body + [];
  }

  method WriteIndex(es: seq<Entry>) returns (index: Bytes)
    ensures index == IndexOf(es)
  {
    index := [];
    for i := 0 to |es|
      invariant index + IndexOf(es[i..]) == IndexOf(es)
    {
      assert es[i..][0] == es[i] && es[i..][1..] == es[i + 1..];
      assert index + (Record(es[i]) + IndexOf(es[i + 1..])) == (index + Record(es[i])) + IndexOf(es[i + 1..]);
      index := index + Record(es[i]);
    }
    assert index + [] == index;
  }

  /** Absorbing files and loading the result gives every file back under its name, and nothing else;
      dropping them all restores the plain image. */
  lemma ArchiveRoundTrip(base: Bytes, input: seq<File>, fs: seq<File>, packed: Bytes)
    requires multiset(fs) == multiset(input) && fs != [] && Limits(base, fs, packed)
    requires forall i, j :: 0 <= i < j < |fs| ==> fs[i].name != fs[j].name
    requires Unpack(packed, 0, [], |Contents(fs)|) == Unpacked(Contents(fs))
    ensures var l := Load(Image(base, fs, packed));
      && l.Archived? && l.base == |base|
      && (forall f :: f in input ==> Lookup(l.files, l.raw, f.name) == Text(f.body))
      && (forall path :: (forall f :: f in input ==> f.name != path) ==> Lookup(l.files, l.raw, path) == Missing)
      && Image(Image(base, fs, packed)[..l.base], [], []) == base
  {
    hide Load, Unpack, Contents, Limits, EntriesOf, IndexOf, Footer, Lookup;
    LoadImage(base, fs, packed);
    forall f | f in input ensures Lookup(EntriesOf(fs), Contents(fs), f.name) == Text(f.body) {
      assert f in multiset(fs);
      FindsFile(fs, f);
    }
    forall path | forall f :: f in input ==> f.name != path ensures Lookup(EntriesOf(fs), Contents(fs), path)
        == Missing {
      forall i | 0 <= i < |fs| ensures fs[i].name != path { assert fs[i] in multiset(input); }
      LookupMisses(EntriesOf(fs), Contents(fs), path);
    }
  }

  lemma FindsFile(fs: seq<File>, f: File)
    requires f in fs && forall i, j :: 0 <= i < j < |fs| ==> fs[i].name != fs[j].name
    ensures Lookup(EntriesOf(fs), Contents(fs), f.name) == Text(f.body)
  {
    hide Contents, Lookup, OffsetOf;
    var i :| 0 <= i < |fs| && fs[i] == f;
    LookupFinds(EntriesOf(fs), Contents(fs), i);
    BodyAt(fs, i);
  }

  method ReadIndex(p: Bytes, count: nat, rawlen: nat) returns (ok: bool, es: seq<Entry>)
    ensures ok == ParseIndex(p, count, rawlen).Some? && (ok ==> es == ParseIndex(p, count, rawlen).value)
  {
    hide U32, U64;
    es := [];
    var at: nat, i: nat := 0, 0;
    ghost var whole := ParseIndex(p, count, rawlen);
    assert p[0..] == p && (whole.Some? ==> [] + whole.value == whole.value);
    while i < count
      invariant i <= count && at <= |p|
      invariant ParseIndex(p, count, rawlen) == (var r := ParseIndex(p[at..], count - i, rawlen); if r.None? then None
          else Some(es + r.value))
    {
      var rest := p[at..];
      if |rest| < 20 { return false, []; }
      var nl, off, len := U32(rest), U64(rest[4..]), U64(rest[12..]);
      if nl < 1 || 20 + nl > |rest| || off >= HALF || len >= HALF || Wrap(off + len) > rawlen { return false, []; }
      var e := Entry(rest[20..20 + nl], off, len);
      assert rest[20 + nl..] == p[at + 20 + nl..];
      ghost var r := ParseIndex(p[at + 20 + nl..], count - i - 1, rawlen);
      if r.Some? { assert es + ([e] + r.value) == (es + [e]) + r.value; }
      es := es + [e];
      at := at + 20 + nl;
      i := i + 1;
    }
    ok := at == |p|;
    if ok { assert es + [] == es; }
  }
}
