/** Constants on AArch64: loading any 64-bit value, bitmask immediates, and operations with an
    immediate operand. Instructions are kept by their fields. */
module A64 {
  import opened Common
  import opened Bits

  const WORD: int := 0x1_0000_0000_0000_0000

  type U64 = x: int | 0 <= x < 0x1_0000_0000_0000_0000
  type Reg = r: nat | r < 31

  function Wrap(x: int): U64 { x % 0x1_0000_0000_0000_0000 }

  function Signed(x: U64): I64 { if x >= 0x8000_0000_0000_0000 then x - WORD else x }

  datatype LogOp = OpAnd | OpOrr | OpEor

  datatype Instr =
    | Movz(rd: Reg, imm: nat, hw: nat)
    | Movn(rd: Reg, imm: nat, hw: nat)
    | Movk(rd: Reg, imm: nat, hw: nat)
    | Logical(op: LogOp, rd: Reg, src: Source, immr: nat, imms: nat)
    | AddImm(rd: Reg, rn: Reg, imm: nat, shift12: bool)
    | SubImm(rd: Reg, rn: Reg, imm: nat, shift12: bool)
    | Ubfm(rd: Reg, rn: Reg, immr: nat, imms: nat)
    | Sbfm(rd: Reg, rn: Reg, immr: nat, imms: nat)
    | AddLsl(rd: Reg, rn: Reg, rm: Reg, amount: nat)
    | MovReg(rd: Reg, rn: Reg)

  datatype Source = Zero | From(r: Reg)

  // ----- what the instructions do -----

  /** Halfword i. */
  function Half(x: nat, i: nat): nat { Low(Shr(x, 16 * i), 16) }

  function Ones(n: nat): nat { Pow2(n) - 1 }

  /** Rotation right by r of a 64-bit number: `(x >> r) | (x << (64 - r))`. */
  function Ror(x: nat, r: nat): nat
    requires r < 64
  {
    if r == 0 then x else Or(Shr(x, r), Low(Shl(x, 64 - r), 64))
  }

  /** The mask of a logical immediate whose N bit is 1 (DecodeBitMasks of the Arm Architecture
      Reference Manual); all ones is reserved. */
  predicate MaskOk(immr: nat, imms: nat) { immr < 64 && imms < 63 }

  function Mask(immr: nat, imms: nat): nat
    requires MaskOk(immr, imms)
  {
    Ror(Ones(imms + 1), immr)
  }

  function LogValue(op: LogOp, x: nat, y: nat): nat {
    match op case OpAnd => And(x, y) case OpOrr => Or(x, y) case OpEor => Xor(x, y)
  }

  type Regs = s: seq<U64> | |s| == 31 witness seq(31, _ => 0)

  function Read(regs: Regs, s: Source): U64 { match s case Zero => 0 case From(r) => regs[r] }

  /** The value put into rd, or None for an unallocated encoding. */
  function Value(i: Instr, regs: Regs): Option<int> {
    match i
    case Movz(_, imm, hw) => if hw < 4 && imm < 0x1_0000 then Some(Shl(imm, 16 * hw)) else None
    case Movn(_, imm, hw) => if hw < 4 && imm < 0x1_0000 then Some(WORD - 1 - Shl(imm, 16 * hw)) else None
    case Movk(rd, imm, hw) => if hw < 4 && imm < 0x1_0000 then var x := regs[rd];
        Some(x - Shl(Half(x, hw), 16 * hw) + Shl(imm, 16 * hw)) else None
    case Logical(op, _, src, immr, imms) => if MaskOk(immr, imms)
        then Some(LogValue(op, Read(regs, src), Mask(immr, imms))) else None
    case AddImm(_, rn, imm, shift12) => if imm < 4096 then var x: int := regs[rn];
        Some(Wrap(x + (if shift12 then 4096 * imm else imm))) else None
    case SubImm(_, rn, imm, shift12) => if imm < 4096 then var x: int := regs[rn];
        Some(Wrap(x - (if shift12 then 4096 * imm else imm))) else None
    case Ubfm(_, rn, immr, imms) => if immr < 64 && imms < 64 then Some(Field(regs[rn], immr, imms)) else None
    case Sbfm(_, rn, immr, imms) => if immr < 64 && immr <= imms < 64 then Some(SignedField(regs[rn], immr, imms))
        else None
    case AddLsl(_, rn, rm, k) => if k < 64 then var x: int := regs[rn]; Some(Wrap(x + Shl(regs[rm], k))) else None
    case MovReg(_, rn) => Some(regs[rn])
  }

  /** Bits immr to imms of x at the bottom; or its lowest bits at position 64 - immr. */
  function Field(x: nat, immr: nat, imms: nat): nat
    requires immr < 64
  {
    if imms >= immr then Low(Shr(x, immr), imms - immr + 1) else Shl(Low(x, imms + 1), 64 - immr)
  }

  /** The same bits with their sign. */
  function SignedField(x: nat, immr: nat, imms: nat): U64
    requires immr <= imms
  {
    var f := Low(Shr(x, immr), imms - immr + 1);
    Wrap(if f >= Pow2(imms - immr) then f - Pow2(imms - immr + 1) else f)
  }

  function With(regs: Regs, rd: Reg, v: U64): (r: Regs) { regs[rd := v] }

  function Exec(i: Instr, regs: Regs): Option<Regs> {
    var v := Value(i, regs);
    if v.None? then None else Some(With(regs, i.rd, Wrap(v.value)))
  }

  function ExecAll(code: seq<Instr>, regs: Regs): Option<Regs> {
    if code == [] then Some(regs)
    else
      match Exec(code[0], regs)
      case None => None
      case Some(r) => ExecAll(code[1..], r)
  }

  lemma {:induction false} ExecSnoc(code: seq<Instr>, i: Instr, regs: Regs)
    requires ExecAll(code, regs).Some?
    ensures ExecAll(code + [i], regs) == Exec(i, ExecAll(code, regs).value)
    decreases code
  {
    if code == [] {
      assert code + [i] == [i];
    } else {
      assert (code + [i])[1..] == code[1..] + [i];
      ExecSnoc(code[1..], i, Exec(code[0], regs).value);
    }
  }

  // ----- rotations -----

  lemma LowShl(x: nat, n: nat, m: nat)
    ensures Low(Shl(x, n), n + m) == Shl(Low(x, m), n) < Pow2(n + m)
  {
    Split(x, m);
    var q, r := Shr(x, m), Low(x, m);
    ShlAdd(Shl(q, m), r, n);
    ShlShl(q, m, n);
    ShlMono(r, Pow2(m) - 1, n);
    Pow2Add(m, n);
    ShlMono(r, Pow2(m), n);
    SplitUnique(Shl(x, n), n + m, q, Shl(r, n));
  }

  /** Rotation exchanges the high and the low part. */
  lemma RorParts(h: nat, l: nat, r: nat)
    requires 0 < r < 64 && h < Pow2(64 - r) && l < Pow2(r)
    ensures Ror(Shl(h, r) + l, r) == Shl(l, 64 - r) + h < Pow2(64)
  {
    hide Pow2, Shl, Shr, Low, Or, And;
    var x := Shl(h, r) + l;
    SplitUnique(x, r, h, l);
    LowShl(x, 64 - r, r);
    OrDisjoint(l, 64 - r, h);
    ShlMono(l, Pow2(r), 64 - r);
    Pow2Add(r, 64 - r);
  }

  lemma Parts(x: nat, r: nat)
    requires 0 < r < 64 && x < Pow2(64)
    ensures x == Shl(Shr(x, r), r) + Low(x, r) && Shr(x, r) < Pow2(64 - r) && Low(x, r) < Pow2(r)
  {
    hide Pow2, Shl, Shr, Low, Or, And;
    Split(x, r);
    var h := Shr(x, r);
    if h >= Pow2(64 - r) {
      ShlMono(Pow2(64 - r), h, r);
      Pow2Add(64 - r, r);
    }
  }

  /** Rotating on by the rest of the word undoes a rotation. */
  lemma RorBack(x: nat, r: nat)
    requires r < 64 && x < Pow2(64)
    ensures Ror(x, r) < Pow2(64) && Ror(Ror(x, r), (64 - r) % 64) == x
  {
    hide Pow2, Shl, Shr, Low, Or, And;
    if r > 0 {
      Parts(x, r);
      RorParts(Shr(x, r), Low(x, r), r);
      RorParts(Low(x, r), Shr(x, r), 64 - r);
    }
  }

  /** `y & (y + 1)` is zero only for a run of ones at the bottom. */
  lemma {:induction false} RunOfOnes(y: nat) returns (n: nat)
    requires And(y, y + 1) == 0
    ensures y == Ones(n)
    decreases y
  {
    if y == 0 {
      n := 0;
    } else {
      OddRun(y);
      n := RunOfOnes(y / 2);
      n := n + 1;
    }
  }

  lemma Halves(q: nat)
    ensures 2 * q / 2 == q && (2 * q + 1) / 2 == q && (2 * q + 2) / 2 == q + 1
  {}

  lemma OddRun(y: nat)
    requires y > 0 && And(y, y + 1) == 0
    ensures y % 2 == 1 && And(y / 2, y / 2 + 1) == 0
  {
    hide And;
    var q := y / 2;
    AndHalves(y, y + 1);
    AndSelf(q);
    Halves(q);
  }

  lemma {:induction false} AndSelf(x: nat)
    ensures And(x, x) == x
    decreases x
  {
    if x > 0 { AndSelf(x / 2); }
  }

  lemma {:induction false} OnesRun(n: nat)
    ensures And(Ones(n), Ones(n) + 1) == 0
    decreases n
  {
    if n > 0 {
      OnesRun(n - 1);
      assert Ones(n) == 2 * Ones(n - 1) + 1 && (Ones(n) + 1) / 2 == Ones(n - 1) + 1 && Ones(n) / 2 == Ones(n - 1);
    }
  }

  // ----- bitmask immediates -----

  /** A run of n ones rotated by k; neither empty nor the whole word. */
  ghost predicate Bitmask(x: nat) { exists n, k :: 1 <= n <= 63 && 0 <= k < 64 && x == Ror(Ones(n), k) }

  lemma BitmaskOk(n: nat, k: nat)
    requires 1 <= n <= 63 && k < 64
    ensures 0 < Ror(Ones(n), k) < Pow2(64) - 1
  {
    hide Pow2, Shl, Shr, Low, Or, And;
    Pow2Mono(n, 63);
    Pow2Mono(0, n);
    PowFacts();
    var y, x := Ones(n), Ror(Ones(n), k);
    RorBack(y, k);
    var r := (64 - k) % 64;
    if x == 0 { RorZero(r); }
    if x == Pow2(64) - 1 { RorFull(r); }
  }

  lemma PowFacts()
    ensures Pow2(0) == 1 && Pow2(64) == 2 * Pow2(63)
  {}

  lemma RorZero(r: nat)
    requires r < 64
    ensures Ror(0, r) == 0
  {
    hide Pow2, Shl, Shr, Low, Or, And;
    if r > 0 {
      RorParts(0, 0, r);
      ShlOne(r);
      ShlOne(64 - r);
    }
  }

  lemma RorFull(r: nat)
    requires r < 64
    ensures Ror(Pow2(64) - 1, r) == Pow2(64) - 1
  {
    hide Pow2, Shl, Shr, Low, Or, And;
    if r > 0 {
      FullParts(r, 64 - r);
      FullParts(64 - r, r);
      RorParts(Ones(64 - r), Ones(r), r);
    }
  }

  lemma FullParts(r: nat, m: nat)
    ensures Shl(Ones(m), r) + Ones(r) == Pow2(m + r) - 1
  {
    Pow2Add(m, r);
    ShlAdd(Ones(m), 1, r);
    ShlOne(r);
  }

  lemma Pow64()
    ensures Pow2(64) == 0x1_0000_0000_0000_0000 && Pow2(63) == 0x8000_0000_0000_0000
  {
    assert Pow2(8) == 2 * 2 * 2 * 2 * 2 * 2 * 2 * 2 * Pow2(0);
    Doubles(8, 8);
    Doubles(16, 16);
    Doubles(32, 32);
    assert Pow2(64) == 2 * Pow2(63);
  }

  lemma Doubles(a: nat, b: nat)
    ensures Pow2(a + b) == Pow2(a) * Pow2(b)
    decreases b
  {
    if b > 0 { Doubles(a, b - 1); }
  }

  /** Finds the rotation and the length of the run. */
  method LogicalImm(v: I64) returns (ok: bool, immr: nat, imms: nat)
    ensures ok == Bitmask(Wrap(v))
    ensures ok ==> MaskOk(immr, imms) && Mask(immr, imms) == Wrap(v)
  {
    hide Ror, And, Or, Shr, Shl, Low, Pow2;
    immr, imms := 0, 0;
    var x: int := Wrap(v);
    Pow64();
    if x == 0 || x + 1 == WORD {
      forall n, k | 1 <= n <= 63 && 0 <= k < 64 ensures x != Ror(Ones(n), k) { BitmaskOk(n, k); }
      return false, 0, 0;
    }
    var r: nat := 0;
    while r < 64
      invariant r <= 64 && forall q {:trigger Ror(x, q)} :: 0 <= q < r ==> And(Ror(x, q), Ror(x, q) + 1) != 0
    {
      var y := Ror(x, r);
      RorBack(x, r);
      if And(y, y + 1) == 0 {
        var n := Length(y, x, r);
        immr, imms := (64 - r) % 64, n - 1;
        ok := true;
        assert Bitmask(x) by { assert x == Ror(Ones(n), immr); }
        return;
      }
      r := r + 1;
    }
    forall n, k | 1 <= n <= 63 && 0 <= k < 64 ensures x != Ror(Ones(n), k) {
      var q := (64 - k) % 64;
      assert And(Ror(x, q), Ror(x, q) + 1) != 0;
      NotThisRun(x, n, k);
    }
    ok := false;
  }

  lemma NotThisRun(x: nat, n: nat, k: nat)
    requires 1 <= n <= 63 && k < 64 && x < Pow2(64) && And(Ror(x, (64 - k) % 64), Ror(x, (64 - k) % 64) + 1) != 0
    ensures x != Ror(Ones(n), k)
  {
    hide Pow2, Shl, Shr, Low, Or, And;
    PowFacts();
    Pow2Mono(n, 63);
    RorBack(Ones(n), k);
    OnesRun(n);
  }

  /** Counts the shifts until the run is gone. */
  method Length(y: nat, ghost x: nat, ghost r: nat) returns (n: nat)
    requires And(y, y + 1) == 0 && r < 64 && 0 < x < Pow2(64) - 1 && y == Ror(x, r)
    ensures 1 <= n <= 63 && y == Ones(n)
  {
    var t := y;
    n := 0;
    ghost var m := RunOfOnes(y);
    while t != 0
      invariant And(t, t + 1) == 0 && n <= m && t == Ones(m - n)
      decreases t
    {
      OddRun(t);
      OnesHalf(m - n, t);
      n := n + 1;
      t := t / 2;
    }
    OnesZero(m - n);
    NotAll(x, r, n);
  }

  lemma OnesHalf(k: nat, t: nat)
    requires t == Ones(k) && t != 0
    ensures k > 0 && t / 2 == Ones(k - 1)
  {}

  lemma OnesZero(k: nat)
    requires Ones(k) == 0
    ensures k == 0
  {
    Pow2Mono(0, k);
  }

  lemma NotAll(x: nat, r: nat, n: nat)
    requires r < 64 && 0 < x < Pow2(64) - 1 && Ones(n) == Ror(x, r)
    ensures 1 <= n <= 63
  {
    hide Pow2, Shl, Shr, Low, Or, And;
    RorBack(x, r);
    PowFacts();
    var k := (64 - r) % 64;
    if n == 0 { RorZero(k); }
    if n >= 64 {
      Pow2Mono(64, n);
      assert Ones(n) == Pow2(64) - 1;
      RorFull(k);
    }
  }

  // ----- loading a constant -----

  /** The i lowest halfwords of u, and all ones above them. */
  function Filled(u: nat, i: nat): int { Low(u, 16 * i) + Pow2(64) - Pow2(16 * i) }

  lemma NextHalf(u: nat, i: nat)
    ensures Low(u, 16 * i + 16) == Low(u, 16 * i) + Shl(Half(u, i), 16 * i)
    ensures Half(Low(u, 16 * i), i) == 0 && Shl(Half(u, i), 16 * i) <= Shl(0xffff, 16 * i)
  {
    hide Pow2, Shl, Low, Shr;
    Small();
    var n := 16 * i;
    var q, h, l := Shr(u, n + 16), Half(u, i), Low(u, n);
    Split(u, n);
    Split(Shr(u, n), 16);
    ShrShr(u, n, 16);
    ShlAdd(Shl(q, 16), h, n);
    ShlShl(q, 16, n);
    ShlMono(h, Pow2(16) - 1, n);
    ShlMono(Pow2(16) - 1, Pow2(16), n);
    Pow2Add(16, n);
    SplitUnique(u, n + 16, q, Shl(h, n) + l);
    ShlOne(n);
    SplitUnique(l, n, 0, l);
    LowNothing(16);
  }

  lemma Small()
    ensures Pow2(16) == 0x1_0000 && Pow2(0) == 1
  {
    assert Pow2(8) == 2 * 2 * 2 * 2 * 2 * 2 * 2 * 2 * Pow2(0);
    assert Pow2(16) == 2 * 2 * 2 * 2 * 2 * 2 * 2 * 2 * Pow2(8);
  }

  lemma LowNothing(n: nat)
    ensures Low(0, n) == 0
  {
    ShlOne(n);
    SplitUnique(0, n, 0, 0);
  }

  /** Above the prefix all halfwords are ones. */
  lemma FilledHalf(u: nat, i: nat)
    requires i < 4
    ensures Filled(u, i) >= 0 && Half(Filled(u, i), i) == 0xffff && 0 <= Filled(u, i) < Pow2(64)
    ensures Filled(u, i + 1) == Filled(u, i) - Shl(0xffff, 16 * i) + Shl(Half(u, i), 16 * i)
  {
    hide Pow2, Shl, Low, Shr;
    Small();
    var n := 16 * i;
    var l := Low(u, n);
    Pow2Mono(n, 64);
    FullParts(n, 64 - n);
    SplitUnique(Shl(Ones(64 - n), n) + l, n, Ones(64 - n), l);
    FullParts(16, 48 - n);
    SplitUnique(Ones(64 - n), 16, Ones(48 - n), Ones(16));
    NextHalf(u, i);
    ShlAdd(Ones(16), 1, n);
    ShlOne(n);
    Pow2Add(16, n);
  }

  lemma LowAll(u: U64)
    ensures Low(u, 64) == u && Low(u, 0) == 0 && Filled(u, 4) == u
  {
    hide Pow2;
    Pow64();
    ShlOne(64);
    SplitUnique(u, 64, 0, u);
  }

  /** How many of the first n halfwords are not h. */
  function Others(u: nat, h: nat, n: nat): nat {
    if n == 0 then 0 else Others(u, h, n - 1) + if Half(u, n - 1) != h then 1 else 0
  }

  /** Counts the halfwords that are not zero, and those that are not all ones. */
  method CountHalves(u: U64) returns (nz: nat, nf: nat)
    ensures nz == Others(u, 0, 4) && nf == Others(u, 0xffff, 4)
    ensures (nz == 0 <==> u == 0) && (nf == 0 <==> u == WORD - 1)
  {
    hide Half, Low, Shl, Shr, Pow2;
    nz, nf := 0, 0;
    LowAll(u);
    Small();
    Pow64();
    for i := 0 to 4
      invariant nz == Others(u, 0, i) && nf == Others(u, 0xffff, i)
      invariant (nz == 0 <==> Low(u, 16 * i) == 0) && (nf == 0 <==> Low(u, 16 * i) == Pow2(16 * i) - 1)
    {
      HalfEnds(u, i);
      var h := Half(u, i);
      if h != 0 { nz := nz + 1; }
      if h != 0xffff { nf := nf + 1; }
    }
  }

  lemma {:induction false} OthersBound(u: nat, n: nat)
    ensures Others(u, 0, n) <= n && Others(u, 0xffff, n) <= n && Others(u, 0, n) + Others(u, 0xffff, n) >= n
  {
    hide Half;
    if n > 0 { OthersBound(u, n - 1); }
  }

  lemma OthersNone(u: nat)
    ensures Others(u, 0, 0) == 0 && Others(u, 0xffff, 0) == 0
  {}

  lemma OthersStep(u: nat, h: nat, n: nat)
    ensures Others(u, h, n + 1) == Others(u, h, n) + if Half(u, n) != h then 1 else 0
  {}

  lemma HalfEnds(u: nat, i: nat)
    ensures Low(u, 16 * i + 16) == 0 <==> Low(u, 16 * i) == 0 && Half(u, i) == 0
    ensures Low(u, 16 * i + 16) == Pow2(16 * i + 16) - 1 <==> Low(u, 16 * i) == Pow2(16 * i) - 1 && Half(u, i) == 0xffff
  {
    hide Pow2, Shl, Low, Shr, Half;
    Small();
    NextHalf(u, i);
    var n, h := 16 * i, Half(u, i);
    HalfBound(u, i);
    ShlOne(n);
    ShlMono(0, h, n);
    ShlMono(h, 0xffff, n);
    ShlAdd(0xffff, 1, n);
    Pow2Add(16, n);
  }

  lemma HalfBound(u: nat, i: nat)
    ensures Half(u, i) <= 0xffff
  {
    Small();
  }

  /** Any 64-bit value: in one instruction if it is a mask, and otherwise in one for every halfword that is
      not zero, or one for every halfword that is not all ones, whatever is less. */
  method MovImm64(rd: Reg, v: I64, ghost regs: Regs) returns (code: seq<Instr>)
    ensures ExecAll(code, regs) == Some(With(regs, rd, Wrap(v)))
    ensures var nz, nf := Others(Wrap(v), 0, 4), Others(Wrap(v), 0xffff, 4);
      |code| == if nz <= 1 || nf <= 1 || Bitmask(Wrap(v)) then 1 else if nf < nz then nf else nz
    ensures |code| <= 4
  {
    OthersBound(Wrap(v), 4);
    hide Ror, And, Or, Shr, Shl, Low, Pow2, Half;
    var u := Wrap(v);
    var nz, nf := CountHalves(u);
    if nz > 1 && nf > 1 {
      var ok, immr, imms := LogicalImm(v);
      if ok {
        code := [Logical(OpOrr, rd, Zero, immr, imms)];
        OneOr(rd, immr, imms, u, regs);
        return;
      }
    }
    if nz == 0 {
      code := [Movz(rd, 0, 0)];
      OneMove(code[0], 0, regs);
      return;
    }
    if nf == 0 {
      code := [Movn(rd, 0, 0)];
      OneMove(code[0], WORD - 1, regs);
      return;
    }
    if nf < nz { code := FromOnes(rd, u, regs); } else { code := FromZero(rd, u, regs); }
  }

  lemma OneOr(rd: Reg, immr: nat, imms: nat, u: U64, regs: Regs)
    requires MaskOk(immr, imms) && Mask(immr, imms) == u
    ensures ExecAll([Logical(OpOrr, rd, Zero, immr, imms)], regs) == Some(With(regs, rd, u))
  {
    hide Mask;
    var code := [Logical(OpOrr, rd, Zero, immr, imms)];
    assert code[1..] == [] && Or(0, Mask(immr, imms)) == Mask(immr, imms);
  }

  lemma OneMove(i: Instr, x: U64, regs: Regs)
    requires (i.Movz? || i.Movn?) && i.hw == 0 && i.imm == 0 && x == if i.Movz? then 0 else WORD - 1
    ensures ExecAll([i], regs) == Some(With(regs, i.rd, x))
  {
    var code := [i];
    ShlOne(0);
    assert code[1..] == [];
  }

  /** Starts from zero; sets every halfword that is not zero. */
  method FromZero(rd: Reg, u: U64, ghost regs: Regs) returns (code: seq<Instr>)
    requires u != 0
    ensures |code| == Others(u, 0, 4) && ExecAll(code, regs) == Some(With(regs, rd, u))
  {
    hide Half, Low, Shl, Shr, Pow2, ExecAll, Others;
    OthersNone(u);
    code := [];
    var done := false;
    LowAll(u);
    for i := 0 to 4
      invariant |code| == Others(u, 0, i)
      invariant (if done then ExecAll(code, regs) == Some(With(regs, rd, Wrap(Low(u, 16 * i))))
          else code == [] && Low(u, 16 * i) == 0)
    {
      NextHalf(u, i);
      OthersStep(u, 0, i);
      HalfBound(u, i);
      ShlOne(16 * i);
      var h := Half(u, i);
      if h != 0 {
        var instr := if done then Movk(rd, h, i) else Movz(rd, h, i);
        if done { KeepZero(u, i, rd, code, regs); } else { StartZero(u, i, rd, regs); }
        code := code + [instr];
        assert !done ==> code == [instr];
        done := true;
      }
    }
  }

  /** Starts from all ones; sets every halfword that is not all ones. */
  method FromOnes(rd: Reg, u: U64, ghost regs: Regs) returns (code: seq<Instr>)
    requires u != WORD - 1
    ensures |code| == Others(u, 0xffff, 4) && ExecAll(code, regs) == Some(With(regs, rd, u))
  {
    hide Half, Low, Shl, Shr, Pow2, ExecAll, Filled, Others;
    OthersNone(u);
    code := [];
    var started := false;
    LowAll(u);
    FilledFull(u);
    for i := 0 to 4
      invariant |code| == Others(u, 0xffff, i)
      invariant (if started then ExecAll(code, regs) == Some(With(regs, rd, Wrap(Filled(u, i))))
          else code == [] && Filled(u, i) == WORD - 1)
    {
      FilledHalf(u, i);
      OthersStep(u, 0xffff, i);
      HalfBound(u, i);
      var h := Half(u, i);
      if h != 0xffff {
        var instr := if started then Movk(rd, h, i) else Movn(rd, 0xffff - h, i);
        if started { KeepOnes(u, i, rd, code, regs); } else { StartOnes(u, i, rd, regs); }
        code := code + [instr];
        assert !started ==> code == [instr];
        started := true;
      }
    }
  }

  lemma FilledFull(u: nat)
    ensures Filled(u, 0) == WORD - 1
  {
    Pow64();
  }

  lemma StartZero(u: U64, i: nat, rd: Reg, regs: Regs)
    requires i < 4 && Low(u, 16 * i) == 0
    ensures ExecAll([Movz(rd, Half(u, i), i)], regs) == Some(With(regs, rd, Wrap(Low(u, 16 * i + 16))))
  {
    hide Half, Low, Shl, Shr, Pow2;
    NextHalf(u, i);
    HalfBound(u, i);
    var code := [Movz(rd, Half(u, i), i)];
    assert code[1..] == [];
  }

  lemma KeepZero(u: U64, i: nat, rd: Reg, code: seq<Instr>, regs: Regs)
    requires i < 4 && ExecAll(code, regs) == Some(With(regs, rd, Wrap(Low(u, 16 * i))))
    ensures ExecAll(code + [Movk(rd, Half(u, i), i)], regs) == Some(With(regs, rd, Wrap(Low(u, 16 * i + 16))))
  {
    hide Half, Low, Shl, Shr, Pow2, ExecAll;
    NextHalf(u, i);
    HalfBound(u, i);
    LowWord(u, 16 * i);
    ShlOne(16 * i);
    var x := Wrap(Low(u, 16 * i));
    assert x == Low(u, 16 * i);
    ExecSnoc(code, Movk(rd, Half(u, i), i), regs);
    assert With(With(regs, rd, x), rd, Wrap(Low(u, 16 * i + 16))) == With(regs, rd, Wrap(Low(u, 16 * i + 16)));
  }

  lemma LowWord(u: U64, n: nat)
    ensures Low(u, n) <= u
  {
    Split(u, n);
  }

  lemma StartOnes(u: U64, i: nat, rd: Reg, regs: Regs)
    requires i < 4 && Filled(u, i) == WORD - 1
    ensures Half(u, i) <= 0xffff && ExecAll([Movn(rd, 0xffff - Half(u, i), i)], regs)
        == Some(With(regs, rd, Wrap(Filled(u, i + 1))))
  {
    hide Half, Low, Shl, Shr, Pow2, Filled;
    FilledHalf(u, i);
    HalfBound(u, i);
    ShlAdd(Half(u, i), 0xffff - Half(u, i), 16 * i);
    var code := [Movn(rd, 0xffff - Half(u, i), i)];
    assert code[1..] == [];
  }

  lemma KeepOnes(u: U64, i: nat, rd: Reg, code: seq<Instr>, regs: Regs)
    requires i < 4 && ExecAll(code, regs) == Some(With(regs, rd, Wrap(Filled(u, i))))
    ensures ExecAll(code + [Movk(rd, Half(u, i), i)], regs) == Some(With(regs, rd, Wrap(Filled(u, i + 1))))
  {
    hide Half, Low, Shl, Shr, Pow2, Filled, ExecAll;
    FilledHalf(u, i);
    HalfBound(u, i);
    FilledWord(u, i);
    var x := Wrap(Filled(u, i));
    assert x == Filled(u, i);
    ExecSnoc(code, Movk(rd, Half(u, i), i), regs);
    assert With(With(regs, rd, x), rd, Wrap(Filled(u, i + 1))) == With(regs, rd, Wrap(Filled(u, i + 1)));
  }

  lemma FilledWord(u: nat, i: nat)
    requires i < 4
    ensures 0 <= Filled(u, i) < WORD
  {
    FilledHalf(u, i);
    Pow64();
  }

  // ----- operations with an immediate operand -----

  datatype AluOp = Add | Sub | AluAnd | AluOr | AluXor | AluShl | AluShr | Mul

  const MIN: int := -0x8000_0000_0000_0000

  /** Arithmetic shift right. */
  function Asr(x: int, n: nat): int
    decreases n
  {
    if n == 0 then x else Asr(x / 2, n - 1)
  }

  /** What the operation means; shifts by 0 to 63. */
  function Meaning(op: AluOp, x: U64, v: I64, uns: bool): U64 {
    var a: int, b: int := x, v;
    match op
    case Add => Wrap(a + b)
    case Sub => Wrap(a - b)
    case AluAnd => Wrap(And(x, Wrap(v)))
    case AluOr => Wrap(Or(x, Wrap(v)))
    case AluXor => Wrap(Xor(x, Wrap(v)))
    case AluShl => if 0 <= v < 64 then Wrap(Shl(x, v)) else 0
    case AluShr => if 0 <= v < 64 then Wrap(if uns then Shr(x, v) else Asr(Signed(x), v)) else 0
    case Mul => Wrap(a * b)
  }

  /** The one operand for which the immediate form is wrong: its negation wraps to itself, which
      passes for a small number and is encoded as 0. */
  predicate Lost(op: AluOp, v: I64) { (op == Add || op == Sub) && v == MIN }

  /** A twelve-bit number, plain or twelve bits up. */
  predicate Imm12(m: int) { 0 <= m <= 4095 || (m % 4096 == 0 && 0 <= m / 4096 <= 4095) }

  /** The field k, as it is or twelve bits up, stands for m. */
  predicate Encodes(k: int, m: int) { 0 <= k <= 4095 && (m == k || m == 4096 * k) }

  lemma Imm12Is(m: int)
    ensures Imm12(m) <==> exists k :: Encodes(k, m)
  {
    if Imm12(m) { assert Encodes(m, m) || Encodes(m / 4096, m); }
  }

  /** One instruction that computes y into rd. */
  lemma Single(i: Instr, regs: Regs, y: int)
    requires Value(i, regs) == Some(y)
    ensures ExecAll([i], regs) == Some(With(regs, i.rd, Wrap(y)))
  {
    hide Value;
    var code := [i];
    assert code[1..] == [];
  }

  method AddSubImm(op: AluOp, rd: Reg, rn: Reg, v: I64, ghost regs: Regs) returns (ok: bool, code: seq<Instr>)
    requires op == Add || op == Sub
    ensures ok == (v == MIN || Imm12(if v < 0 then -1 * v else v))
    ensures ok && v != MIN ==> ExecAll(code, regs) == Some(With(regs, rd, Meaning(op, regs[rn], v, false)))
    ensures v == MIN ==> ExecAll(code, regs) == Some(With(regs, rd, regs[rn]))
  {
    hide ExecAll, Wrap, With, And, Or, Xor, Shl, Asr;
    var a, m: int := op, v;
    if m < 0 {
      m := if v == MIN then MIN else -m; // negation wraps
      a := if a == Add then Sub else Add;
    }
    ok := true;
    if m <= 4095 {
      var imm := if m >= 0 then m else 0; // the twelve bits that reach the word
      code := AddSub(a, rd, rn, imm, false, regs);
      WrapSame(regs[rn]);
    } else if m % 4096 == 0 && m / 4096 <= 4095 {
      code := AddSub(a, rd, rn, m / 4096, true, regs);
      assert 4096 * (m / 4096) == m;
    } else {
      ok, code := false, [];
    }
  }

  lemma WrapSame(x: U64)
    ensures Wrap(x) == x
  {}

  method AddSub(a: AluOp, rd: Reg, rn: Reg, imm: nat, shift12: bool, ghost regs: Regs) returns (code: seq<Instr>)
    requires (a == Add || a == Sub) && imm <= 4095
    ensures var x: int := regs[rn];
      var m := if shift12 then 4096 * imm else imm;
      ExecAll(code, regs) == Some(With(regs, rd, Wrap(if a == Add then x + m else x - m)))
  {
    code := [if a == Add then AddImm(rd, rn, imm, shift12) else SubImm(rd, rn, imm, shift12)];
    ghost var x: int := regs[rn];
    ghost var m := if shift12 then 4096 * imm else imm;
    Single(code[0], regs, Wrap(if a == Add then x + m else x - m));
  }

  method LogicalOp(op: AluOp, rd: Reg, rn: Reg, v: I64, ghost regs: Regs) returns (ok: bool, code: seq<Instr>)
    requires op == AluAnd || op == AluOr || op == AluXor
    ensures ok == Bitmask(Wrap(v))
        && (ok ==> ExecAll(code, regs) == Some(With(regs, rd, Meaning(op, regs[rn], v, false))))
  {
    hide Ror, And, Or, Xor, Pow2;
    var immr, imms;
    ok, immr, imms := LogicalImm(v);
    code := [];
    if ok {
      var lop := if op == AluAnd then OpAnd else if op == AluOr then OpOrr else OpEor;
      code := [Logical(lop, rd, From(rn), immr, imms)];
      Single(code[0], regs, LogValue(lop, regs[rn], Mask(immr, imms)));
    }
  }

  // Shifts.

  lemma LowIsWrap(x: nat)
    ensures Low(x, 64) == Wrap(x)
  {
    hide Shl, Low, Shr, Pow2;
    Pow64();
    Split(x, 64);
    ShlTimes(Shr(x, 64), 64);
    var q, l := Shr(x, 64), Low(x, 64);
    WrapAdd(l, q);
  }

  lemma WrapAdd(l: U64, q: int)
    ensures Wrap(l + q * 0x1_0000_0000_0000_0000) == l
  {}

  lemma LslField(x: U64, n: nat)
    requires 1 <= n < 64
    ensures Field(x, (64 - n) % 64, 63 - n) == Wrap(Shl(x, n))
  {
    hide Shl, Low, Shr, Pow2;
    LowShl(x, n, 64 - n);
    LowIsWrap(Shl(x, n));
  }

  lemma LsrField(x: U64, n: nat)
    requires n < 64
    ensures Field(x, n, 63) == Shr(x, n) && Shr(x, n) < Pow2(64 - n)
  {
    hide Shl, Low, Pow2;
    Pow64();
    if n > 0 { Parts(x, n); }
    ShlOne(64 - n);
    SplitUnique(Shr(x, n), 64 - n, 0, Shr(x, n));
  }

  /** Shifting a negative number: the same bits, less what the sign stands for. */
  lemma {:induction false} AsrNegative(x: nat, n: nat, m: nat)
    ensures Asr(x - Pow2(m + n), n) == Shr(x, n) - Pow2(m)
    decreases n
  {
    if n > 0 {
      assert Pow2(m + n) == 2 * Pow2(m + n - 1);
      HalfOf(x, Pow2(m + n - 1));
      AsrNegative(x / 2, n - 1, m);
    }
  }

  lemma HalfOf(x: nat, p: nat)
    ensures (x - 2 * p) / 2 == x / 2 - p
  {}

  lemma {:induction false} AsrPositive(x: nat, n: nat)
    ensures Asr(x, n) == Shr(x, n)
    decreases n
  {
    if n > 0 { AsrPositive(x / 2, n - 1); }
  }

  lemma AsrField(x: U64, n: nat)
    requires 1 <= n < 64
    ensures SignedField(x, n, 63) == Wrap(Asr(Signed(x), n))
  {
    hide Shl, Low, Shr, Pow2, Asr;
    LsrField(x, n);
    ShlOne(64 - n);
    SplitUnique(Shr(x, n), 64 - n, 0, Shr(x, n));
    Pow64();
    TopBit(x, n);
    if x >= 0x8000_0000_0000_0000 { AsrNegative(x, n, 64 - n); } else { AsrPositive(x, n); }
  }

  lemma TopBit(x: U64, n: nat)
    requires 1 <= n < 64
    ensures Shr(x, n) >= Pow2(63 - n) <==> x >= 0x8000_0000_0000_0000
  {
    hide Shl, Low, Shr, Pow2;
    Pow64();
    Split(x, n);
    Pow2Add(63 - n, n);
    if Shr(x, n) < Pow2(63 - n) { ShlMono(Shr(x, n), Pow2(63 - n), n); } else { ShlMono(Pow2(63 - n), Shr(x, n), n); }
  }

  method ShiftImm(op: AluOp, rd: Reg, rn: Reg, v: I64, uns: bool, ghost regs: Regs) returns (ok: bool, code: seq<Instr>)
    requires op == AluShl || op == AluShr
    ensures ok == (0 <= v <= 63) && (ok ==> ExecAll(code, regs) == Some(With(regs, rd, Meaning(op, regs[rn], v, uns))))
  {
    hide Shl, Low, Shr, Pow2, Asr, Field, SignedField;
    ok, code := false, [];
    if v < 0 || v > 63 { return; }
    ok := true;
    var x := regs[rn];
    if v == 0 {
      code := [MovReg(rd, rn)];
      Single(code[0], regs, x);
      NoShift(x);
    } else if op == AluShl {
      code := [Ubfm(rd, rn, (64 - v) % 64, 63 - v)];
      LslField(x, v);
      Single(code[0], regs, Field(x, (64 - v) % 64, 63 - v));
    } else if uns {
      code := [Ubfm(rd, rn, v, 63)];
      LsrField(x, v);
      Single(code[0], regs, Field(x, v, 63));
    } else {
      code := [Sbfm(rd, rn, v, 63)];
      AsrField(x, v);
      Single(code[0], regs, SignedField(x, v, 63));
    }
  }

  lemma NoShift(x: U64)
    ensures Shl(x, 0) == x && Shr(x, 0) == x && Wrap(Asr(Signed(x), 0)) == x
  {}

  // Multiplication.

  /** `p & (p - 1)` is zero exactly for powers of two. */
  lemma PowerAnd(k: nat)
    ensures And(Pow2(k), Pow2(k) - 1) == 0
    decreases k
  {
    if k > 0 {
      PowerAnd(k - 1);
      assert (2 * Pow2(k - 1) - 1) / 2 == Pow2(k - 1) - 1;
    }
  }

  lemma EvenPower(p: nat)
    requires p > 1 && And(p, p - 1) == 0
    ensures p % 2 == 0 && And(p / 2, p / 2 - 1) == 0
  {
    hide And;
    var q := p / 2;
    AndHalves(p, p - 1);
    AndSelf(q);
    Halves(q);
    Halves(q - 1);
  }

  lemma AndHalves(x: nat, y: nat)
    ensures And(x, y) >= 2 * And(x / 2, y / 2) && (x % 2 == 0 || y % 2 == 0 ==> And(x, y) == 2 * And(x / 2, y / 2))
  {}

  /** Counts the halvings down to 1. */
  method Log2(p0: nat) returns (k: nat)
    requires p0 >= 1 && And(p0, p0 - 1) == 0
    ensures p0 == Pow2(k)
  {
    k := 0;
    var p := p0;
    while p > 1
      invariant p >= 1 && And(p, p - 1) == 0 && p0 == Shl(p, k)
      decreases p
    {
      EvenPower(p);
      ShlShl(p / 2, 1, k);
      assert p == Shl(p / 2, 1) by { assert Shl(p / 2, 1) == 2 * Shl(p / 2, 0); }
      p := p / 2;
      k := k + 1;
    }
    ShlOne(k);
  }

  /** Takes the factors of two out of v. */
  method Odd(v: nat) returns (t: nat, s: nat)
    requires v > 0
    ensures t % 2 == 1 && v == Shl(t, s)
  {
    t, s := v, 0;
    while t % 2 == 0
      invariant t > 0 && v == Shl(t, s)
      decreases t
    {
      ShlShl(t / 2, 1, s);
      assert t == Shl(t / 2, 1) by { assert Shl(t / 2, 1) == 2 * Shl(t / 2, 0); }
      t := t / 2;
      s := s + 1;
    }
  }

  /** A power of two, or one more than a power of two that is at least 2. */
  ghost predicate Cheap(v: int) { exists k: nat :: v == Pow2(k) || (k >= 1 && v == Pow2(k) + 1) }

  lemma PowerBelow(k: nat, v: nat)
    requires Pow2(k) <= v < 0x8000_0000_0000_0000
    ensures k < 63
  {
    Pow64();
    if k >= 63 { Pow2Mono(63, k); }
  }

  lemma AddTimes(x: int, p: int)
    ensures x + x * p == x * (p + 1)
  {}

  lemma OddPower(t: nat, s: nat, k: nat)
    requires t % 2 == 1
    ensures Shl(t, s) == Pow2(k) ==> t == 1
    decreases k
  {
    if s > 0 {
      assert Shl(t, s) == 2 * Shl(t, s - 1);
      if k > 0 { OddPower(t, s - 1, k - 1); }
    }
  }

  method MulImm(rd: Reg, rn: Reg, v: I64, ghost regs: Regs) returns (ok: bool, code: seq<Instr>)
    ensures ok == Cheap(v) && (ok ==> ExecAll(code, regs) == Some(With(regs, rd, Meaning(Mul, regs[rn], v, false))))
  {
    hide Shl, Low, Shr, Pow2, And, Field, ExecAll, Wrap, With, Or, Xor, Asr, Cheap;
    ok, code := false, [];
    if v <= 0 {
      NotPositive(v);
      return;
    }
    var p: int := v - 1;
    if p > 1 && And(p, p - 1) == 0 {
      code := MulByOneMore(rd, rn, v, regs);
      ok := true;
      return;
    }
    var t, s := Odd(v);
    if t != 1 {
      NotCheap(v, t, s);
      return;
    }
    ShlOne(s);
    PowerBelow(s, v);
    IsCheap(v, s);
    code := MulByPower(rd, rn, v, s, regs);
    ok := true;
  }

  lemma NotPositive(v: int)
    requires v <= 0
    ensures !Cheap(v)
  {
    forall k: nat ensures v != Pow2(k) && v != Pow2(k) + 1 {}
  }

  lemma IsCheap(v: int, k: nat)
    requires v == Pow2(k) || (k >= 1 && v == Pow2(k) + 1)
    ensures Cheap(v)
  {}

  /** `add rd, rn, rn, lsl #k`. */
  method MulByOneMore(rd: Reg, rn: Reg, v: I64, ghost regs: Regs) returns (code: seq<Instr>)
    requires v - 1 > 1 && And(v - 1, v - 2) == 0
    ensures Cheap(v) && ExecAll(code, regs) == Some(With(regs, rd, Meaning(Mul, regs[rn], v, false)))
  {
    hide Shl, Low, Shr, Pow2, And, Field, ExecAll, Wrap, With, Or, Xor, Asr, Cheap;
    var p: int := v - 1;
    var ps := Log2(p);
    PowerBelow(ps, p);
    NotOne(ps, p);
    code := [AddLsl(rd, rn, rn, ps)];
    ghost var x: int := regs[rn];
    ShlTimes(x, ps);
    AddTimes(x, p);
    IsCheap(v, ps);
    Single(code[0], regs, Wrap(x + Shl(x, ps)));
    WrapSame(Wrap(x + Shl(x, ps)));
  }

  method MulByPower(rd: Reg, rn: Reg, v: I64, s: nat, ghost regs: Regs) returns (code: seq<Instr>)
    requires s < 63 && v == Pow2(s)
    ensures ExecAll(code, regs) == Some(With(regs, rd, Meaning(Mul, regs[rn], v, false)))
  {
    hide Shl, Low, Shr, Pow2, And, Field, Wrap, Or, Xor, Asr;
    code := [];
    ghost var x: int := regs[rn];
    ShlTimes(x, s);
    PowFacts();
    WrapSame(regs[rn]);
    if s == 0 {
      if rd != rn {
        code := [MovReg(rd, rn)];
        Single(code[0], regs, x);
      }
      assert rd == rn ==> With(regs, rd, regs[rn]) == regs;
    } else {
      code := [Ubfm(rd, rn, (64 - s) % 64, 63 - s)];
      LslField(x, s);
      Single(code[0], regs, Field(x, (64 - s) % 64, 63 - s));
      WrapSame(Wrap(Shl(x, s)));
    }
  }

  lemma NotOne(k: nat, p: nat)
    requires p > 1 && p == Pow2(k)
    ensures k >= 1
  {
    PowFacts();
  }

  lemma NotCheap(v: nat, t: nat, s: nat)
    requires v > 0 && t % 2 == 1 && t != 1 && v == Shl(t, s) && !(v - 1 > 1 && And(v - 1, v - 2) == 0)
    ensures !Cheap(v)
  {
    forall k: nat ensures v != Pow2(k) && !(k >= 1 && v == Pow2(k) + 1) {
      OddPower(t, s, k);
      PlusOne(v, k);
    }
  }

  lemma PlusOne(v: nat, k: nat)
    requires v > 0
    ensures k >= 1 && v == Pow2(k) + 1 ==> v - 1 > 1 && And(v - 1, v - 2) == 0
  {
    if k >= 1 {
      PowerAnd(k);
      assert Pow2(k) == 2 * Pow2(k - 1);
    }
  }

  /** Whatever is accepted computes the operation, but for the one operand that cannot be negated. */
  method AluImm(op: AluOp, rd: Reg, rn: Reg, v: I64, uns: bool, ghost regs: Regs) returns (ok: bool, code: seq<Instr>)
    ensures ok ==> (ExecAll(code, regs) == Some(With(regs, rd, Meaning(op, regs[rn], v, uns))) <==> !Lost(op, v))
    ensures op == Mul ==> ok == Cheap(v)
    ensures op == AluShl || op == AluShr ==> ok == (0 <= v <= 63)
    ensures op == AluAnd || op == AluOr || op == AluXor ==> ok == Bitmask(Wrap(v))
    ensures op == Add || op == Sub ==> ok == (v == MIN || Imm12(if v < 0 then -1 * v else v))
  {
    hide And, Or, Xor, Shl, Shr, Asr, ExecAll;
    if op == Add || op == Sub {
      ok, code := AddSubImm(op, rd, rn, v, regs);
      if v == MIN { Halfway(op, regs, rd, rn); }
    } else if op == AluAnd || op == AluOr || op == AluXor {
      ok, code := LogicalOp(op, rd, rn, v, regs);
    } else if op == AluShl || op == AluShr {
      ok, code := ShiftImm(op, rd, rn, v, uns, regs);
    } else {
      ok, code := MulImm(rd, rn, v, regs);
    }
  }

  /** Adding or subtracting 2^63 does change the number. */
  lemma Halfway(op: AluOp, regs: Regs, rd: Reg, rn: Reg)
    requires op == Add || op == Sub
    ensures With(regs, rd, regs[rn]) != With(regs, rd, Meaning(op, regs[rn], MIN, false))
  {
    assert With(regs, rd, regs[rn])[rd] == regs[rn];
  }
}
