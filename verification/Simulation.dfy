/** The emitted code does what the source says: every terminating run of a statement, whether it
    ends normally, by a jump, by a return or by a fault, is matched by a run of its code. */
module Simulation {
  import opened Common
  import opened Source
  import opened Machine
  import opened Lowering
  import opened Bits

  // ----- code in place -----

  /** Where the labels of a piece of code point. */
  datatype Targets = Targets(brk: int, cont: int, pan: int)

  /** Everything that stays fixed while a function runs. */
  datatype Cx = Cx(env: Env, c: seq<Instr>, fr: Frame, size: nat, rbp: int)

  function Displacement(l: Label, at: int, tg: Targets): int {
    match l
    case Rel(d) => d
    case ToBreak => tg.brk - (at + 1)
    case ToContinue => tg.cont - (at + 1)
    case ToPanic => tg.pan - (at + 1)
  }

  function Fix(s: Sym, at: int, tg: Targets): Instr {
    match s
    case Plain(i) => i
    case SymJmp(l) => Jmp(Displacement(l, at, tg))
    case SymJcc(cc, l) => Jcc(cc, Displacement(l, at, tg))
  }

  /** The program c holds the code frag at pc, its labels resolved. */
  ghost predicate CodeAt(c: seq<Instr>, pc: int, frag: seq<Sym>, tg: Targets) {
    0 <= pc && pc + |frag| <= |c| && forall i :: 0 <= i < |frag| ==> c[pc + i] == Fix(frag[i], pc + i, tg)
  }

  lemma CodeSplit(c: seq<Instr>, pc: int, a: seq<Sym>, b: seq<Sym>, tg: Targets)
    requires CodeAt(c, pc, a + b, tg)
    ensures CodeAt(c, pc, a, tg) && CodeAt(c, pc + |a|, b, tg)
  {
    forall i | 0 <= i < |a| ensures c[pc + i] == Fix(a[i], pc + i, tg) { assert (a + b)[i] == a[i]; }
    forall i | 0 <= i < |b| ensures c[pc + |a| + i] == Fix(b[i], pc + |a| + i, tg) {
      assert (a + b)[|a| + i] == b[i];
      assert c[pc + (|a| + i)] == Fix((a + b)[|a| + i], pc + (|a| + i), tg);
    }
  }

  // ----- states that correspond -----

  /** Slots lie in the frame without overlapping. */
  ghost predicate FrameOk(fr: Frame, size: nat) {
    && size % 16 == 0
    && (forall x :: 0 <= x < |fr| ==> SlotOk(fr[x], size))
    && forall x, y :: 0 <= x < y < |fr| ==> Apart(fr[x], fr[y])
  }

  predicate SlotOk(s: Slot, size: nat) {
    s.off % 8 == 0 && 8 * s.len <= s.off <= size && s.len < 0x1000_0000 && (!s.isArray ==> s.len == 1)
  }

  predicate Apart(a: Slot, b: Slot) { a.off <= b.off - 8 * b.len || b.off <= a.off - 8 * a.len }

  ghost predicate CxOk(cx: Cx) {
    FrameOk(cx.fr, cx.size) && cx.rbp % 16 == 0 && cx.size <= cx.rbp < 0x4000_0000_0000_0000
  }

  /** The address of word i of local x. */
  function Addr(cx: Cx, x: nat, i: int): int
    requires x < |cx.fr|
  {
    cx.rbp - cx.fr[x].off + 8 * i
  }

  ghost predicate VarsAt(cx: Cx, vars: seq<seq<I64>>, mem: Memory)
    requires |vars| == |cx.fr|
  {
    forall x, i {:trigger vars[x][i]} :: 0 <= x < |cx.fr| && 0 <= i < |vars[x]|
        ==> Get(mem, Addr(cx, x, i)) == vars[x][i]
  }

  /** The machine is in the frame, d words below it, and every local has its value. */
  ghost predicate Rep(cx: Cx, st: State, m: Mach, d: nat) {
    && Ok(m) && m.status == Running && m.trace == st.trace
    && m.regs[RBP] == cx.rbp && m.regs[RSP] == cx.rbp - cx.size - 8 * d
    && Shaped(st, Lens(cx.fr)) && VarsAt(cx, st.vars, m.mem)
  }

  /** Nothing at or above the stack pointer changed, apart from the locals. */
  ghost predicate Kept(cx: Cx, m: Mach, k: Mach) {
    Ok(m) && forall a :: a >= m.regs[RSP] && !(cx.rbp - cx.size <= a < cx.rbp) ==> Get(k.mem, a) == Get(m.mem, a)
  }

  ghost predicate Reach(cx: Cx, m: Mach, k: Mach) {
    Ok(m) && exists n :: Run(cx.env, cx.c, m, n) == k
  }

  lemma ReachTrans(cx: Cx, a: Mach, b: Mach, c: Mach)
    requires Reach(cx, a, b) && Reach(cx, b, c)
    ensures Reach(cx, a, c)
  {
    var n :| Run(cx.env, cx.c, a, n) == b;
    var k :| Run(cx.env, cx.c, b, k) == c;
    RunAdd(cx.env, cx.c, a, n, k);
  }

  lemma ReachSelf(cx: Cx, m: Mach)
    requires Ok(m)
    ensures Reach(cx, m, m)
  {
    assert Run(cx.env, cx.c, m, 0) == m;
  }

  lemma ReachStep(cx: Cx, m: Mach)
    requires Ok(m) && m.status == Running && 0 <= m.pc < |cx.c|
    ensures Reach(cx, m, Step(cx.env, cx.c[m.pc], m))
  {
    hide Step;
    assert Run(cx.env, cx.c, m, 1) == Run(cx.env, cx.c, Step(cx.env, cx.c[m.pc], m), 0);
  }

  /** One instruction of a piece of code. */
  lemma Next(cx: Cx, m: Mach, i: Instr, tg: Targets)
    requires Ok(m) && m.status == Running && CodeAt(cx.c, m.pc, P(i), tg)
    ensures Reach(cx, m, Step(cx.env, i, m))
  {
    hide Step;
    assert P(i)[0] == Plain(i);
    assert cx.c[m.pc + 0] == Fix(P(i)[0], m.pc + 0, tg);
    ReachStep(cx, m);
  }

  lemma KeptTrans(cx: Cx, a: Mach, b: Mach, c: Mach)
    requires Ok(b) && Kept(cx, a, b) && Kept(cx, b, c) && b.regs[RSP] <= a.regs[RSP]
    ensures Kept(cx, a, c)
  {}

  /** An instruction that leaves memory, stack, trace and status alone. */
  lemma Quiet(cx: Cx, st: State, m: Mach, k: Mach, d: nat)
    requires Rep(cx, st, m, d) && Ok(k) && k.mem == m.mem && k.trace == m.trace && k.status == Running
    requires k.regs[RSP] == m.regs[RSP] && k.regs[RBP] == m.regs[RBP]
    ensures Rep(cx, st, k, d) && Kept(cx, m, k)
  {}

  // ----- single instructions -----

  /** k differs from m in registers other than RSP and RBP, the flags and the place. */
  ghost predicate Beside(m: Mach, k: Mach) {
    && Ok(m) && Ok(k) && k.mem == m.mem && k.trace == m.trace && k.status == Running
    && k.regs[RSP] == m.regs[RSP] && k.regs[RBP] == m.regs[RBP]
  }

  lemma PushStep(env: Env, r: Reg, m: Mach)
    requires Ok(m)
    ensures Step(env, Push(r), m) ==
            m.(regs := m.regs[RSP := m.regs[RSP] - 8], mem := m.mem[m.regs[RSP] - 8 := m.regs[r]], pc := m.pc + 1)
  {}

  lemma PopStep(env: Env, r: Reg, m: Mach)
    requires Ok(m)
    ensures Step(env, Pop(r), m) == m.(regs := m.regs[RSP := m.regs[RSP] + 8][r := Get(m.mem, m.regs[RSP])], pc :=
        m.pc + 1)
  {}

  lemma MovImmStep(env: Env, r: Reg, v: I64, m: Mach)
    requires Ok(m) && m.status == Running && r != RSP && r != RBP
    ensures var k := Step(env, MovImm(r, v), m); Beside(m, k) && k.regs == m.regs[r := v] && k.pc == m.pc + 1
  {
    hide Wrap, Unsigned, SignExtend32;
    if -0x8000_0000 <= v <= 0x7fff_ffff { SignExtendSmall(v); }
    WrapUnsigned(v);
  }

  lemma StoreStep(env: Env, off: int, r: Reg, m: Mach)
    requires Ok(m)
    ensures Step(env, StLocal(off, r), m) == m.(mem := m.mem[m.regs[RBP] - off := m.regs[r]], pc := m.pc + 1)
  {}

  lemma TestStep(env: Env, m: Mach)
    requires Ok(m)
    ensures Step(env, TestRax, m) == m.(flags := Compared(m.regs[RAX], 0), pc := m.pc + 1)
  {}

  lemma JccStep(env: Env, cc: Cc, rel: int, m: Mach)
    requires Ok(m) && m.flags.Compared?
    ensures Step(env, Jcc(cc, rel), m) == m.(pc := m.pc + 1 + if Machine.Holds(cc, m.flags.a, m.flags.b) then rel
        else 0)
  {}

  lemma SetccStep(env: Env, cc: Cc, m: Mach)
    requires Ok(m) && m.flags.Compared?
    ensures Step(env, Setcc(cc), m) ==
            m.(regs := m.regs[RAX := if Machine.Holds(cc, m.flags.a, m.flags.b) then 1 else 0], pc := m.pc + 1)
  {}

  lemma MovRegStep(env: Env, dst: Reg, src: Reg, m: Mach)
    requires Ok(m)
    ensures Step(env, MovReg(dst, src), m) == m.(regs := m.regs[dst := m.regs[src]], pc := m.pc + 1)
  {}

  lemma JmpStep(env: Env, rel: int, m: Mach)
    requires Ok(m)
    ensures Step(env, Jmp(rel), m) == m.(pc := m.pc + 1 + rel)
  {}

  lemma CmpImmStep(env: Env, imm: nat, m: Mach)
    requires Ok(m)
    ensures Step(env, CmpImm(imm), m) == m.(flags := Compared(m.regs[RAX], imm), pc := m.pc + 1)
  {}

  lemma ShiftSteps(env: Env, op: BinOp, va: I64, vb: I64, j: Instr, m: Mach)
    requires (op == ShiftLeft && j == ShlCl) || (op == ShiftRight && j == SarCl)
    requires Ok(m) && m.status == Running && m.regs[RAX] == va && m.regs[RDI] == vb
    ensures var k1 := Step(env, MovReg(RCX, RDI), m); Ok(k1) && k1.status == Running && k1.pc == m.pc + 1
    ensures var k := Step(env, j, Step(env, MovReg(RCX, RDI), m));
      Beside(m, k) && k.pc == m.pc + 2 && Apply(op, va, vb) == Some(k.regs[RAX])
  {
    hide Wrap, Pow2;
  }

  // ----- the stack -----

  lemma WriteBelow(cx: Cx, vars: seq<seq<I64>>, mem: Memory, a: int, v: int)
    requires CxOk(cx) && |vars| == |cx.fr| && VarsAt(cx, vars, mem) && a < cx.rbp - cx.size
    requires forall x :: 0 <= x < |vars| ==> |vars[x]| == cx.fr[x].len
    ensures VarsAt(cx, vars, mem[a := v])
  {}

  lemma DoPush(cx: Cx, st: State, m: Mach, d: nat, r: Reg, tg: Targets) returns (k: Mach)
    requires CxOk(cx) && Rep(cx, st, m, d) && CodeAt(cx.c, m.pc, P(Push(r)), tg)
    ensures Reach(cx, m, k) && Rep(cx, st, k, d + 1) && Kept(cx, m, k) && k.pc == m.pc + 1
    ensures k.regs == m.regs[RSP := m.regs[RSP] - 8] && Get(k.mem, k.regs[RSP]) == m.regs[r]
  {
    hide Step, Run, Reach, CodeAt;
    Next(cx, m, Push(r), tg);
    k := Step(cx.env, Push(r), m);
    PushStep(cx.env, r, m);
    WriteBelow(cx, st.vars, m.mem, m.regs[RSP] - 8, m.regs[r]);
  }

  lemma DoPop(cx: Cx, st: State, m: Mach, d: nat, r: Reg, tg: Targets) returns (k: Mach)
    requires Rep(cx, st, m, d + 1) && CodeAt(cx.c, m.pc, P(Pop(r)), tg) && r != RSP && r != RBP
    ensures Reach(cx, m, k) && Rep(cx, st, k, d) && k.pc == m.pc + 1 && k.mem == m.mem
    ensures k.regs == m.regs[RSP := m.regs[RSP] + 8][r := Get(m.mem, m.regs[RSP])]
  {
    hide Step, Run, Reach, CodeAt;
    Next(cx, m, Pop(r), tg);
    k := Step(cx.env, Pop(r), m);
    PopStep(cx.env, r, m);
  }

  lemma SignExtendSmall(v: I64)
    requires -0x8000_0000 <= v <= 0x7fff_ffff
    ensures SignExtend32(v % 0x1_0000_0000) == v
  {}

  lemma WrapUnsigned(v: I64)
    ensures Wrap(Unsigned(v)) == v
  {}

  /** The value that one of the four loads of a constant leaves in r, and its length in bytes. */
  function Loaded(i: Instr, r: Reg): Option<int> {
    match i
    case XorZero(t) => if t == r then Some(0) else None
    case MovU32(t, imm) => if t == r && imm <= 0xffff_ffff then Some(imm) else None
    case MovS32(t, imm) => if t == r && imm <= 0xffff_ffff then Some(SignExtend32(imm)) else None
    case MovAbs(t, imm) => if t == r && imm <= 0xffff_ffff_ffff_ffff then Some(Wrap(imm)) else None
    case _ => None
  }

  function LoadBytes(i: Instr): nat {
    match i
    case XorZero(_) => 2
    case MovU32(_, _) => 5
    case MovS32(_, _) => 7
    case _ => 10
  }

  /** No other load of the same constant is shorter. */
  lemma ShortestLoad(r: Reg, v: I64, i: Instr)
    requires Loaded(i, r) == Some(v)
    ensures Loaded(MovImm(r, v), r) == Some(v) && LoadBytes(MovImm(r, v)) <= LoadBytes(i)
  {
    LoadedMov(r, v);
    LoadRange(r, v, i);
    hide Loaded, Wrap, SignExtend32, Unsigned;
  }

  lemma LoadedMov(r: Reg, v: I64)
    ensures Loaded(MovImm(r, v), r) == Some(v)
  {}

  lemma LoadRange(r: Reg, v: I64, i: Instr)
    requires Loaded(i, r) == Some(v)
    ensures i.XorZero? ==> v == 0
    ensures i.MovU32? ==> 0 <= v <= 0xffff_ffff
    ensures i.MovS32? ==> -0x8000_0000 <= v <= 0x7fff_ffff
    ensures i.XorZero? || i.MovU32? || i.MovS32? || i.MovAbs?
  {
    hide Wrap;
  }


  /** A constant load, in whichever of its four encodings. */
  lemma DoMovImm(cx: Cx, st: State, m: Mach, d: nat, r: Reg, v: I64, tg: Targets) returns (k: Mach)
    requires Rep(cx, st, m, d) && CodeAt(cx.c, m.pc, P(MovImm(r, v)), tg) && r != RSP && r != RBP
    ensures Reach(cx, m, k) && Rep(cx, st, k, d) && Kept(cx, m, k) && k.pc == m.pc + 1 && k.mem == m.mem
    ensures k.regs == m.regs[r := v]
  {
    hide Step, Run, Reach, CodeAt, MovImm, Rep, Kept;
    RepOk(cx, st, m, d);
    Next(cx, m, MovImm(r, v), tg);
    k := Step(cx.env, MovImm(r, v), m);
    MovImmStep(cx.env, r, v, m);
    Quiet(cx, st, m, k, d);
  }

  // ----- operators -----

  lemma IdivDividend(a: I64)
    ensures (if a < 0 then -1 else 0) * 0x1_0000_0000_0000_0000 + Unsigned(a) == a
  {}

  lemma TruncDivFits(a: I64, b: I64)
    requires b != 0
    ensures TruncDiv(a, b) == Wrap(TruncDiv(a, b)) <==> !DivTraps(a, b)
    ensures Wrap(a - TruncDiv(a, b) * b) == a - TruncDiv(a, b) * b
  {
    var x: int, y: int := if a < 0 then -1 * a else a, if b < 0 then -1 * b else b;
    var q := x / y;
    QuotientSize(x, y);
    SignedTimes(q, y);
    var t := TruncDiv(a, b);
    assert t == q || t == -q;
    var qy := q * y;
    assert t * b == if a < 0 then -qy else qy;
    WrapInRange(a - t * b);
    if -0x8000_0000_0000_0000 <= t < 0x8000_0000_0000_0000 { WrapInRange(t); }
  }

  lemma WrapInRange(x: int)
    ensures Wrap(x) == x <==> -0x8000_0000_0000_0000 <= x < 0x8000_0000_0000_0000
  {}

  lemma QuotientSize(x: int, y: int)
    requires x >= 0 && y >= 1
    ensures var q := x / y;
      0 <= q <= x && (y >= 2 ==> 2 * q <= x) && (y == 1 ==> q == x) && 0 <= x - q * y < y && 0 <= q * y <= x
  {
    var q := x / y;
    assert x == q * y + x % y;
    QuotientPositive(x, y);
    MulGrow(q, y);
  }

  lemma QuotientPositive(x: int, y: int)
    requires x >= 0 && y >= 1
    ensures x / y >= 0
  {}

  lemma SignedTimes(q: int, y: int)
    ensures (-q) * y == -(q * y) && q * (-y) == -(q * y) && (-q) * (-y) == q * y
  {}

  lemma MulGrow(q: int, y: int)
    requires q >= 0 && y >= 1
    ensures q * y >= q && (y >= 2 ==> q * y >= 2 * q)
  {
    assert q * (y - 1) >= 0;
    if y >= 2 { assert q * (y - 2) >= 0; }
  }

  /** The machine stopped on a divide error or in a call, or went to the panic stub; everything
      observable happened before. */
  ghost predicate Faulted(f: Source.Fault, tr: Trace, k: Mach, tg: Targets) {
    && Ok(k) && k.trace == tr
    && match f
       case DivideError => k.status == DivideTrap || k.status == Stopped(f)
       case IndexPanic => (k.status == Running && k.pc == tg.pan) || k.status == Stopped(f)
       case NoReturn => k.status == Stopped(f)
  }

  /** A piece of expression code ran: the value is in RAX, or the fault happened. */
  ghost predicate Computed(cx: Cx, r: Result, m: Mach, k: Mach, n: nat, d: nat, tg: Targets) {
    && Reach(cx, m, k)
    && match r
       case Stop(f, tr) => Faulted(f, tr, k, tg)
       case Val(v, st) => k.pc == m.pc + n && k.regs[RAX] == v && Rep(cx, st, k, d) && Kept(cx, m, k)
  }

  /** Two quiet instructions in a row. */
  lemma Next2(cx: Cx, m: Mach, i: Instr, j: Instr, tg: Targets)
    requires Ok(m) && m.status == Running && CodeAt(cx.c, m.pc, P(i) + P(j), tg)
    requires Step(cx.env, i, m).status == Running && Step(cx.env, i, m).pc == m.pc + 1
    ensures Reach(cx, m, Step(cx.env, j, Step(cx.env, i, m)))
  {
    hide Step;
    CodeSplit(cx.c, m.pc, P(i), P(j), tg);
    Next(cx, m, i, tg);
    Next(cx, Step(cx.env, i, m), j, tg);
    ReachTrans(cx, m, Step(cx.env, i, m), Step(cx.env, j, Step(cx.env, i, m)));
  }

  /** Instructions that compute in registers other than RSP and RBP and cannot stop. */
  predicate Computes(i: Instr) {
    match i
    case MovReg(dst, _) => dst != RSP && dst != RBP
    case AddRdi | SubRdi | AndRdi | OrRdi | XorRdi | ImulRdi | ImulRcx => true
    case Cqo | ShlCl | SarCl | NegRax | NotRax | CmpRdi | CmpImm(_) | TestRax => true
    case _ => false
  }

  lemma DoCompute(cx: Cx, st: State, m: Mach, d: nat, i: Instr, tg: Targets) returns (k: Mach)
    requires Computes(i) && Rep(cx, st, m, d) && CodeAt(cx.c, m.pc, P(i), tg)
    ensures k == Step(cx.env, i, m) && Reach(cx, m, k) && Rep(cx, st, k, d) && Kept(cx, m, k)
    ensures k.pc == m.pc + 1 && k.mem == m.mem && k.regs[RSP] == m.regs[RSP]
  {
    hide Step, Run, Reach, CodeAt, Rep, Kept;
    RepOk(cx, st, m, d);
    Next(cx, m, i, tg);
    k := Step(cx.env, i, m);
    ComputeStep(cx.env, i, m);
    Quiet(cx, st, m, k, d);
  }

  lemma ComputeStep(env: Env, i: Instr, m: Mach)
    requires Computes(i) && Ok(m) && m.status == Running
    ensures var k := Step(env, i, m); Beside(m, k) && k.pc == m.pc + 1
  {
    hide Step;
    if i.MovReg? {
      MovRegStep(env, i.dst, i.src, m);
    } else if i.CmpRdi? || i.CmpImm? || i.TestRax? {
      FlagStep(env, i, m);
    } else {
      ResultStep(env, i, m);
    }
  }

  lemma FlagStep(env: Env, i: Instr, m: Mach)
    requires (i.CmpRdi? || i.CmpImm? || i.TestRax?) && Ok(m) && m.status == Running
    ensures var k := Step(env, i, m); Beside(m, k) && k.pc == m.pc + 1
  {
    hide SetReg, SetAlu, Get;
  }

  lemma ResultStep(env: Env, i: Instr, m: Mach)
    requires Computes(i) && !i.MovReg? && !i.CmpRdi? && !i.CmpImm? && !i.TestRax? && Ok(m) && m.status == Running
    ensures var k := Step(env, i, m); Beside(m, k) && k.pc == m.pc + 1
  {
    hide Step;
    if i == Cqo || i == NotRax { WordStep(env, i, m); } else { AluStep(env, i, m); }
  }

  lemma WordStep(env: Env, i: Instr, m: Mach)
    requires (i == Cqo || i == NotRax) && Ok(m) && m.status == Running
    ensures var k := Step(env, i, m); Beside(m, k) && k.pc == m.pc + 1
  {
    hide SetReg, Wrap;
  }

  lemma AluStep(env: Env, i: Instr, m: Mach)
    requires Computes(i) && !i.MovReg? && !i.CmpRdi? && !i.CmpImm? && !i.TestRax? && i != Cqo && i != NotRax
    requires Ok(m) && m.status == Running
    ensures var k := Step(env, i, m); Beside(m, k) && k.pc == m.pc + 1
  {
    hide SetReg, SetAlu, Wrap, And, Or, Xor, TruncDiv, Unsigned, ZeroWords, Pow2, SignExtend32, Machine.Holds, Get;
  }

  lemma ScaleRegs(env: Env, m: Mach)
    requires Ok(m) && m.regs[RCX] == 8
    ensures Step(env, ImulRcx, m).regs == m.regs[RAX := Wrap(m.regs[RAX] * 8)]
  {}

  lemma AddRegs(env: Env, m: Mach)
    requires Ok(m)
    ensures Step(env, AddRdi, m).regs == m.regs[RAX := Wrap(m.regs[RAX] + m.regs[RDI])]
  {}

  lemma RepOk(cx: Cx, st: State, m: Mach, d: nat)
    requires Rep(cx, st, m, d)
    ensures Ok(m) && m.status == Running && m.trace == st.trace && m.regs[RSP] == cx.rbp - cx.size - 8 * d
        && Shaped(st, Lens(cx.fr))
  {}

  predicate Single(op: BinOp) { op in {Add, Sub, Mul, BitAnd, BitOr, BitXor} }

  lemma SingleOp(cx: Cx, op: BinOp, va: I64, vb: I64, st: State, m: Mach, d: nat, tg: Targets) returns (k: Mach)
    requires Single(op)
    requires Rep(cx, st, m, d) && CodeAt(cx.c, m.pc, BinCode(op), tg) && m.regs[RAX] == va && m.regs[RDI] == vb
    ensures Apply(op, va, vb).Some? && Computed(cx, Val(Apply(op, va, vb).value, st), m, k, |BinCode(op)|, d, tg)
  {
    hide Step, Rep, CodeAt, Apply, Run, Reach, Kept, BinCode;
    RepOk(cx, st, m, d);
    var i := SingleInstr(op);
    SingleResult(cx.env, op, va, vb, m, i);
    k := DoCompute(cx, st, m, d, i, tg);
  }

  lemma SingleInstr(op: BinOp) returns (i: Instr)
    requires Single(op)
    ensures BinCode(op) == P(i) && Computes(i)
  {
    i := BinCode(op)[0].i;
  }

  lemma SingleResult(env: Env, op: BinOp, va: I64, vb: I64, m: Mach, i: Instr)
    requires Single(op) && BinCode(op) == P(i) && Ok(m) && m.regs[RAX] == va && m.regs[RDI] == vb
    ensures Apply(op, va, vb).Some? && Step(env, i, m).regs[RAX] == Apply(op, va, vb).value
  {
    hide SetAlu, Wrap, Unsigned, And, Or, Xor, TruncDiv, ZeroWords, Pow2, SignExtend32, Machine.Holds, Get;
    assert P(i)[0] == BinCode(op)[0];
  }

  lemma ShiftOp(cx: Cx, op: BinOp, va: I64, vb: I64, st: State, m: Mach, d: nat, tg: Targets) returns (k: Mach)
    requires op == ShiftLeft || op == ShiftRight
    requires Rep(cx, st, m, d) && CodeAt(cx.c, m.pc, BinCode(op), tg) && m.regs[RAX] == va && m.regs[RDI] == vb
    ensures Apply(op, va, vb).Some? && Computed(cx, Val(Apply(op, va, vb).value, st), m, k, |BinCode(op)|, d, tg)
  {
    hide Run, Reach, CodeAt, Rep, Kept, Step, Apply;
    RepOk(cx, st, m, d);
    var j := if op == ShiftLeft then ShlCl else SarCl;
    assert BinCode(op) == P(MovReg(RCX, RDI)) + P(j);
    ShiftSteps(cx.env, op, va, vb, j, m);
    Next2(cx, m, MovReg(RCX, RDI), j, tg);
    k := Step(cx.env, j, Step(cx.env, MovReg(RCX, RDI), m));
    Quiet(cx, st, m, k, d);
  }

  lemma CompareOp(cx: Cx, op: BinOp, va: I64, vb: I64, st: State, m: Mach, d: nat, tg: Targets) returns (k: Mach)
    requires op in {Eq, Ne, Lt, Le}
    requires Rep(cx, st, m, d) && CodeAt(cx.c, m.pc, BinCode(op), tg) && m.regs[RAX] == va && m.regs[RDI] == vb
    ensures Apply(op, va, vb).Some? && Computed(cx, Val(Apply(op, va, vb).value, st), m, k, |BinCode(op)|, d, tg)
  {
    hide Run, Reach, CodeAt, Rep, Kept, Step, Apply;
    RepOk(cx, st, m, d);
    var j := Setcc(CompareCode(op));
    assert BinCode(op) == P(CmpRdi) + P(j);
    CompareStep(cx.env, op, va, vb, m);
    Next2(cx, m, CmpRdi, j, tg);
    k := Step(cx.env, j, Step(cx.env, CmpRdi, m));
    Quiet(cx, st, m, k, d);
  }

  lemma CompareStep(env: Env, op: BinOp, va: I64, vb: I64, m: Mach)
    requires op in {Eq, Ne, Lt, Le} && Ok(m) && m.status == Running && m.regs[RAX] == va && m.regs[RDI] == vb
    ensures var k1 := Step(env, CmpRdi, m); k1.status == Running && k1.pc == m.pc + 1 && Ok(k1)
    ensures var k := Step(env, Setcc(CompareCode(op)), Step(env, CmpRdi, m));
      Beside(m, k) && k.pc == m.pc + 2 && Apply(op, va, vb) == Some(k.regs[RAX])
  {
    hide Step;
    CmpRdiStep(env, m);
    SetccStep(env, CompareCode(op), Step(env, CmpRdi, m));
  }

  lemma CmpRdiStep(env: Env, m: Mach)
    requires Ok(m)
    ensures Step(env, CmpRdi, m) == m.(flags := Compared(m.regs[RAX], m.regs[RDI]), pc := m.pc + 1)
  {}

  /** `cqo; idiv rdi`. */
  lemma IdivStep(env: Env, m: Mach, va: I64, vb: I64)
    requires Ok(m) && m.regs[RAX] == va && m.regs[RDI] == vb && m.regs[RDX] == (if va < 0 then -1 else 0)
    ensures Step(env, IdivRdi, m) ==
            if DivTraps(va, vb) then m.(status := DivideTrap)
            else m.(regs := m.regs[RAX := Apply(Div, va, vb).value][RDX := Apply(Mod, va, vb).value], flags :=
                Unset, pc := m.pc + 1)
  {
    IdivDividend(va);
    if vb != 0 { TruncDivFits(va, vb); }
    hide TruncDiv, Wrap, Unsigned;
  }

  lemma DivOp(cx: Cx, op: BinOp, va: I64, vb: I64, st: State, m: Mach, d: nat, tg: Targets) returns (k: Mach)
    requires op == Div || op == Mod
    requires Rep(cx, st, m, d) && CodeAt(cx.c, m.pc, BinCode(op), tg) && m.regs[RAX] == va && m.regs[RDI] == vb
    ensures Computed(cx, if Apply(op, va, vb).None? then Stop(DivideError, st.trace)
        else Val(Apply(op, va, vb).value, st), m, k, |BinCode(op)|, d, tg)
  {
    hide Run, Reach, CodeAt, Rep, Kept, Step, Apply;
    RepOk(cx, st, m, d);
    DivSteps(cx.env, va, vb, m);
    var k2 := Step(cx.env, IdivRdi, Step(cx.env, Cqo, m));
    if op == Div {
      assert BinCode(op) == P(Cqo) + P(IdivRdi);
      Next2(cx, m, Cqo, IdivRdi, tg);
      k := k2;
    } else {
      assert BinCode(op) == P(Cqo) + P(IdivRdi) + P(MovReg(RAX, RDX));
      CodeSplit(cx.c, m.pc, P(Cqo) + P(IdivRdi), P(MovReg(RAX, RDX)), tg);
      Next2(cx, m, Cqo, IdivRdi, tg);
      if DivTraps(va, vb) {
        k := k2;
      } else {
        k := Step(cx.env, MovReg(RAX, RDX), k2);
        Next(cx, k2, MovReg(RAX, RDX), tg);
        ReachTrans(cx, m, k2, k);
      }
    }
    if !DivTraps(va, vb) { Quiet(cx, st, m, k, d); }
  }

  lemma DivSteps(env: Env, va: I64, vb: I64, m: Mach)
    requires Ok(m) && m.status == Running && m.regs[RAX] == va && m.regs[RDI] == vb
    ensures var k1 := Step(env, Cqo, m); k1.status == Running && k1.pc == m.pc + 1 && Ok(k1)
    ensures var k2 := Step(env, IdivRdi, Step(env, Cqo, m));
      if DivTraps(va, vb) then k2.status == DivideTrap && k2.trace == m.trace && Apply(Div, va, vb).None?
          && Apply(Mod, va, vb).None?
      else
        var k := Step(env, MovReg(RAX, RDX), k2);
        && Beside(m, k2) && k2.pc == m.pc + 2 && Apply(Div, va, vb) == Some(k2.regs[RAX])
        && Beside(m, k) && k.pc == m.pc + 3 && Apply(Mod, va, vb) == Some(k.regs[RAX])
  {
    IdivStep(env, Step(env, Cqo, m), va, vb);
    hide TruncDiv, Wrap, Unsigned;
  }

  /** RAX op= RDI is the source's operator, trap included. */
  lemma OpSim(cx: Cx, op: BinOp, va: I64, vb: I64, st: State, m: Mach, d: nat, tg: Targets) returns (k: Mach)
    requires Rep(cx, st, m, d) && CodeAt(cx.c, m.pc, BinCode(op), tg) && m.regs[RAX] == va && m.regs[RDI] == vb
    ensures Computed(cx, if Apply(op, va, vb).None? then Stop(DivideError, st.trace)
        else Val(Apply(op, va, vb).value, st), m, k, |BinCode(op)|, d, tg)
  {
    hide Rep, Computed, CodeAt, BinCode;
    if Single(op) { k := SingleOp(cx, op, va, vb, st, m, d, tg); }
    else if op == ShiftLeft || op == ShiftRight { k := ShiftOp(cx, op, va, vb, st, m, d, tg); }
    else if op == Div || op == Mod { k := DivOp(cx, op, va, vb, st, m, d, tg); }
    else { k := CompareOp(cx, op, va, vb, st, m, d, tg); }
  }

  // ----- putting pieces together -----

  /** Code that ran quietly, followed by code that computes. */
  lemma Prefix(cx: Cx, r: Result, m: Mach, k: Mach, k2: Mach, n1: nat, n2: nat, d: nat, tg: Targets)
    requires Reach(cx, m, k) && Kept(cx, m, k) && k.pc == m.pc + n1 && k.regs[RSP] == m.regs[RSP]
    requires Ok(k) && Computed(cx, r, k, k2, n2, d, tg)
    ensures Computed(cx, r, m, k2, n1 + n2, d, tg)
  {
    ReachTrans(cx, m, k, k2);
  }

  /** A word on the stack survives what runs above it. */
  lemma Saved(cx: Cx, k1: Mach, k2: Mach, v: int)
    requires Ok(k1) && Get(k1.mem, k1.regs[RSP]) == v && k1.regs[RSP] < cx.rbp - cx.size && Kept(cx, k1, k2)
    ensures Get(k2.mem, k1.regs[RSP]) == v
  {}

  /** A place was computed: its address is in RAX. */
  ghost predicate Located(cx: Cx, x: nat, w: Where, m: Mach, k: Mach, n: nat, d: nat, tg: Targets)
    requires x < |cx.fr|
  {
    && Reach(cx, m, k)
    && match w
       case Nowhere(f, tr) => Faulted(f, tr, k, tg)
       case At(i, st) => k.pc == m.pc + n && k.regs[RAX] == Addr(cx, x, i) && Rep(cx, st, k, d) && Kept(cx, m, k)
  }

  lemma AddrInjective(cx: Cx, x: nat, i: nat, y: nat, j: nat)
    requires CxOk(cx) && x < |cx.fr| && y < |cx.fr| && i < cx.fr[x].len && j < cx.fr[y].len
    ensures cx.rbp - cx.size <= Addr(cx, x, i) < cx.rbp
    ensures Addr(cx, x, i) == Addr(cx, y, j) ==> x == y && i == j
  {
    if x < y { assert Apart(cx.fr[x], cx.fr[y]); }
    if y < x { assert Apart(cx.fr[y], cx.fr[x]); }
  }

  lemma StoreVar(cx: Cx, st: State, mem: Memory, x: nat, i: nat, v: I64)
    requires CxOk(cx) && Shaped(st, Lens(cx.fr)) && VarsAt(cx, st.vars, mem) && x < |cx.fr| && i < cx.fr[x].len
    ensures VarsAt(cx, Put(st, x, i, v).vars, mem[Addr(cx, x, i) := v])
  {
    var vars := Put(st, x, i, v).vars;
    forall y, j {:trigger vars[y][j]} | 0 <= y < |cx.fr| && 0 <= j < |vars[y]|
      ensures Get(mem[Addr(cx, x, i) := v], Addr(cx, y, j)) == vars[y][j]
    {
      assert |vars[y]| == |st.vars[y]| == Lens(cx.fr)[y];
      AddrInjective(cx, x, i, y, j);
      assert (y != x || j != i) ==> vars[y][j] == st.vars[y][j];
    }
  }

  lemma DoStore(cx: Cx, st: State, m: Mach, d: nat, x: nat, i: nat, v: I64, tg: Targets) returns (k: Mach)
    requires CxOk(cx) && Rep(cx, st, m, d) && CodeAt(cx.c, m.pc, P(StoreRdi), tg)
    requires x < |cx.fr| && i < cx.fr[x].len && m.regs[RDI] == Addr(cx, x, i) && m.regs[RAX] == v
    ensures Reach(cx, m, k) && Rep(cx, Put(st, x, i, v), k, d) && Kept(cx, m, k) && k.pc == m.pc + 1 && k.regs == m.regs
  {
    Next(cx, m, StoreRdi, tg);
    k := Step(cx.env, StoreRdi, m);
    StoreVar(cx, st, m.mem, x, i, v);
    AddrInjective(cx, x, i, x, i);
  }

  lemma DoLoad(cx: Cx, st: State, m: Mach, d: nat, x: nat, i: nat, tg: Targets) returns (k: Mach)
    requires Rep(cx, st, m, d) && CodeAt(cx.c, m.pc, P(LoadRax), tg)
    requires x < |cx.fr| && i < cx.fr[x].len && m.regs[RAX] == Addr(cx, x, i)
    ensures Computed(cx, Val(st.vars[x][i], st), m, k, 1, d, tg) && k.mem == m.mem
        && k.regs == m.regs[RAX := st.vars[x][i]]
  {
    Next(cx, m, LoadRax, tg);
    k := Step(cx.env, LoadRax, m);
    Quiet(cx, st, m, k, d);
  }

  lemma DoLea(cx: Cx, st: State, m: Mach, d: nat, x: nat, r: Reg, tg: Targets) returns (k: Mach)
    requires x < |cx.fr| && Rep(cx, st, m, d) && CodeAt(cx.c, m.pc, P(LeaLocal(r, cx.fr[x].off)), tg) && r != RSP
        && r != RBP
    ensures Reach(cx, m, k) && Rep(cx, st, k, d) && Kept(cx, m, k) && k.pc == m.pc + 1 && k.mem == m.mem
    ensures k.regs == m.regs[r := Addr(cx, x, 0)]
  {
    var i := LeaLocal(r, cx.fr[x].off);
    Next(cx, m, i, tg);
    k := Step(cx.env, i, m);
  }

  /** Scaling and adding the base gives the element's address without wrapping. */
  lemma ElementAddress(cx: Cx, x: nat, i: int)
    requires CxOk(cx) && x < |cx.fr| && 0 <= i < cx.fr[x].len
    ensures Wrap(Wrap(i * 8) + Addr(cx, x, 0)) == Addr(cx, x, i)
  {
    WrapInRange(i * 8);
    WrapInRange(i * 8 + Addr(cx, x, 0));
  }

  lemma UnsignedBound(v: I64, n: nat)
    requires n < 0x8000_0000
    ensures Unsigned(v) >= Unsigned(n) <==> !(0 <= v < n)
  {}

  lemma Split3(c: seq<Instr>, pc: int, p: seq<Sym>, q: seq<Sym>, r: seq<Sym>, tg: Targets)
    requires CodeAt(c, pc, p + q + r, tg)
    ensures CodeAt(c, pc, p, tg) && CodeAt(c, pc + |p|, q, tg) && CodeAt(c, pc + |p| + |q|, r, tg)
  {
    hide CodeAt;
    CodeSplit(c, pc, p + q, r, tg);
    CodeSplit(c, pc, p, q, tg);
  }

  lemma Split4(c: seq<Instr>, pc: int, p: seq<Sym>, q: seq<Sym>, r: seq<Sym>, s: seq<Sym>, tg: Targets)
    requires CodeAt(c, pc, p + q + r + s, tg)
    ensures CodeAt(c, pc, p, tg) && CodeAt(c, pc + |p|, q, tg) && CodeAt(c, pc + |p| + |q|, r, tg)
    ensures CodeAt(c, pc + |p| + |q| + |r|, s, tg)
  {
    hide CodeAt;
    CodeSplit(c, pc, p + q + r, s, tg);
    Split3(c, pc, p, q, r, tg);
  }

  lemma Split5(c: seq<Instr>, pc: int, p: seq<Sym>, q: seq<Sym>, r: seq<Sym>, s: seq<Sym>, t: seq<Sym>, tg: Targets)
    requires CodeAt(c, pc, p + q + r + s + t, tg)
    ensures CodeAt(c, pc, p, tg) && CodeAt(c, pc + |p|, q, tg) && CodeAt(c, pc + |p| + |q|, r, tg)
    ensures CodeAt(c, pc + |p| + |q| + |r|, s, tg) && CodeAt(c, pc + |p| + |q| + |r| + |s|, t, tg)
  {
    hide CodeAt;
    CodeSplit(c, pc, p + q + r + s, t, tg);
    Split4(c, pc, p, q, r, s, tg);
  }

  // ----- expressions -----

  /** Index in RAX, base on the stack: the check, the scaling and the addition. */
  /** `cmp rax, len; jae`: goes on exactly when the index is in range. */
  lemma IndexTest(cx: Cx, m: Mach, x: nat, v: I64, tg: Targets) returns (k: Mach)
    requires x < |cx.fr| && cx.fr[x].len < 0x1000_0000 && Ok(m) && m.status == Running && m.regs[RAX] == v
    requires CodeAt(cx.c, m.pc, P(CmpImm(cx.fr[x].len)) + [SymJcc(AE, ToPanic)], tg)
    ensures Reach(cx, m, k) && Beside(m, k) && k.regs == m.regs && k.pc == if 0 <= v < cx.fr[x].len then m.pc + 2
        else tg.pan
  {
    hide Run, Reach, CodeAt, Step;
    var cmp := CmpImm(cx.fr[x].len);
    CodeSplit(cx.c, m.pc, P(cmp), [SymJcc(AE, ToPanic)], tg);
    Next(cx, m, cmp, tg);
    var k1 := Step(cx.env, cmp, m);
    CmpImmStep(cx.env, cx.fr[x].len, m);
    JumpAt(cx.c, k1.pc, SymJcc(AE, ToPanic), tg);
    ReachStep(cx, k1);
    k := Step(cx.env, Jcc(AE, tg.pan - (m.pc + 2)), k1);
    JccStep(cx.env, AE, tg.pan - (m.pc + 2), k1);
    ReachTrans(cx, m, k1, k);
    UnsignedBound(v, cx.fr[x].len);
  }

  lemma LengthFits(cx: Cx, x: nat)
    requires CxOk(cx) && x < |cx.fr|
    ensures cx.fr[x].len < 0x1000_0000
  {}

  lemma IndexTail(cx: Cx, st: State, m: Mach, d: nat, x: nat, v: I64, tg: Targets) returns (k: Mach)
    requires CxOk(cx) && x < |cx.fr| && Rep(cx, st, m, d + 1) && m.regs[RAX] == v
    requires Get(m.mem, m.regs[RSP]) == Addr(cx, x, 0)
    requires CodeAt(cx.c, m.pc, IndexCode(cx.fr, x), tg)
    ensures Located(cx, x, if 0 <= v < cx.fr[x].len then At(v, st) else Nowhere(IndexPanic, st.trace), m, k, 6, d, tg)
  {
    hide Get, Run, Reach, CodeAt, Rep, Kept, Step, MovImm, Addr, CxOk;
    RepOk(cx, st, m, d + 1);
    LengthFits(cx, x);
    var cmp := CmpImm(cx.fr[x].len);
    Split5(cx.c, m.pc, P(cmp) + [SymJcc(AE, ToPanic)], P(MovImm(RCX, 8)), P(ImulRcx), P(Pop(RDI)), P(AddRdi), tg);
    var k2 := IndexTest(cx, m, x, v, tg);
    Quiet(cx, st, m, k2, d + 1);
    if 0 <= v < cx.fr[x].len {
      k := IndexScale(cx, st, k2, d, x, v, tg);
      ReachTrans(cx, m, k2, k);
      KeptSame(cx, m, k);
    } else {
      k := k2;
    }
  }

  lemma IndexScale(cx: Cx, st: State, m: Mach, d: nat, x: nat, v: I64, tg: Targets) returns (k: Mach)
    requires CxOk(cx) && x < |cx.fr| && Rep(cx, st, m, d + 1) && m.regs[RAX] == v && 0 <= v < cx.fr[x].len
    requires Get(m.mem, m.regs[RSP]) == Addr(cx, x, 0)
    requires CodeAt(cx.c, m.pc, P(MovImm(RCX, 8)), tg) && CodeAt(cx.c, m.pc + 1, P(ImulRcx), tg)
    requires CodeAt(cx.c, m.pc + 2, P(Pop(RDI)), tg) && CodeAt(cx.c, m.pc + 3, P(AddRdi), tg)
    ensures Reach(cx, m, k) && k.pc == m.pc + 4 && k.regs[RAX] == Addr(cx, x, v) && Rep(cx, st, k, d) && k.mem == m.mem
  {
    hide ExprCode, ExprOk, Eval, PlaceCode, Find, PlaceOk, Apply, BinCode;
    hide Step, Wrap, Rep, CodeAt, Addr, Reach;
    var k2 := ScaleIndex(cx, st, m, d, v, tg);
    k := AddBase(cx, st, k2, d, x, v, tg);
    ReachTrans(cx, m, k2, k);
  }

  lemma ScaleIndex(cx: Cx, st: State, m: Mach, d: nat, v: I64, tg: Targets) returns (k: Mach)
    requires Rep(cx, st, m, d + 1) && m.regs[RAX] == v
    requires CodeAt(cx.c, m.pc, P(MovImm(RCX, 8)), tg) && CodeAt(cx.c, m.pc + 1, P(ImulRcx), tg)
    ensures Reach(cx, m, k) && k.pc == m.pc + 2 && k.regs[RAX] == Wrap(v * 8) && k.regs[RSP] == m.regs[RSP]
        && Rep(cx, st, k, d + 1) && k.mem == m.mem
  {
    hide ExprCode, ExprOk, Eval, PlaceCode, Find, PlaceOk, Apply, BinCode;
    RepOk(cx, st, m, d + 1);
    hide Step, Wrap, Rep, CodeAt, Reach;
    var k1 := DoMovImm(cx, st, m, d + 1, RCX, 8, tg);
    k := DoCompute(cx, st, k1, d + 1, ImulRcx, tg);
    ScaleRegs(cx.env, k1);
    ReachTrans(cx, m, k1, k);
  }

  lemma AddBase(cx: Cx, st: State, m: Mach, d: nat, x: nat, v: I64, tg: Targets) returns (k: Mach)
    requires CxOk(cx) && x < |cx.fr| && Rep(cx, st, m, d + 1) && m.regs[RAX] == Wrap(v * 8) && 0 <= v < cx.fr[x].len
    requires Get(m.mem, m.regs[RSP]) == Addr(cx, x, 0)
    requires CodeAt(cx.c, m.pc, P(Pop(RDI)), tg) && CodeAt(cx.c, m.pc + 1, P(AddRdi), tg)
    ensures Reach(cx, m, k) && k.pc == m.pc + 2 && k.regs[RAX] == Addr(cx, x, v) && Rep(cx, st, k, d) && k.mem == m.mem
  {
    hide Step, Run, Wrap, Rep, CodeAt, Addr, Reach, CxOk, Kept, Get, Shaped, Lens;
    RepOk(cx, st, m, d + 1);
    var k3 := DoPop(cx, st, m, d, RDI, tg);
    k := DoCompute(cx, st, k3, d, AddRdi, tg);
    AddRegs(cx.env, k3);
    ElementAddress(cx, x, v);
    ReachTrans(cx, m, k3, k);
  }

  /** Quiet runs compose. */
  lemma KeptChain(cx: Cx, a: Mach, b: Mach, c: Mach)
    requires Reach(cx, a, b) && Reach(cx, b, c) && Kept(cx, a, b) && Kept(cx, b, c) && b.regs[RSP] <= a.regs[RSP]
    ensures Reach(cx, a, c) && Kept(cx, a, c)
  {
    hide Kept, Reach;
    ReachTrans(cx, a, b, c);
    KeptIsOk(cx, b, c);
    KeptTrans(cx, a, b, c);
  }

  lemma KeptIsOk(cx: Cx, m: Mach, k: Mach)
    requires Kept(cx, m, k)
    ensures Ok(m)
  {}

  lemma KeptSame(cx: Cx, m: Mach, k: Mach)
    requires Ok(m) && k.mem == m.mem
    ensures Kept(cx, m, k)
  {}

  /** After a piece of code computed a value, one more computing instruction. */
  lemma ThenCompute(cx: Cx, v: I64, st: State, m: Mach, k1: Mach, n: nat, d: nat, i: Instr, w: I64,
      tg: Targets) returns (k: Mach)
    requires Ok(m) && m.regs[RSP] == cx.rbp - cx.size - 8 * d && Computed(cx, Val(v, st), m, k1, n, d, tg)
    requires Computes(i) && CodeAt(cx.c, m.pc + n, P(i), tg) && Step(cx.env, i, k1).regs[RAX] == w
    ensures Computed(cx, Val(w, st), m, k, n + 1, d, tg)
  {
    hide Step, CodeAt;
    k := DoCompute(cx, st, k1, d, i, tg);
    hide Rep, Reach, Kept;
    KeptChain(cx, m, k1, k);
  }

  /** RAX is pushed, an expression evaluated, and the pushed word popped into RDI. */
  ghost predicate ProtectedResult(cx: Cx, r: Result, m: Mach, k: Mach, n: nat, d: nat, tg: Targets) {
    && Ok(m) && Reach(cx, m, k)
    && match r
       case Stop(f, tr) => Faulted(f, tr, k, tg)
       case Val(v, st) =>
         k.pc == m.pc + n && Rep(cx, st, k, d) && k.regs[RAX] == v && k.regs[RDI] == m.regs[RAX] && Kept(cx, m, k)
  }

  function ProtectedCode(fr: Frame, e: Expr, d: nat): seq<Sym>
    requires ExprOk(e, Lens(fr))
  {
    P(Push(RAX)) + ExprCode(fr, e, d + 1) + P(Pop(RDI))
  }

  /** The popping half: k2 is the state after the expression ran above the pushed word. */
  lemma PopProtected(cx: Cx, v: I64, st: State, m: Mach, k1: Mach, k2: Mach, n: nat, d: nat,
      tg: Targets) returns (k: Mach)
    requires Ok(m) && Ok(k1) && Reach(cx, m, k1) && Kept(cx, m, k1) && k1.pc == m.pc + 1
    requires m.regs[RSP] == cx.rbp - cx.size - 8 * d && k1.regs[RSP] == m.regs[RSP] - 8 && Get(k1.mem, k1.regs[RSP])
        == m.regs[RAX]
    requires Computed(cx, Val(v, st), k1, k2, n, d + 1, tg) && CodeAt(cx.c, k1.pc + n, P(Pop(RDI)), tg)
    ensures ProtectedResult(cx, Val(v, st), m, k, n + 2, d, tg)
  {
    hide ExprCode, ExprOk, Eval, PlaceCode, Find, PlaceOk, Apply, BinCode;
    hide CodeAt, Step, Run, Get;
    Saved(cx, k1, k2, m.regs[RAX]);
    k := DoPop(cx, st, k2, d, RDI, tg);
    hide Rep, Reach;
    KeptSame(cx, k2, k);
    KeptChain(cx, k1, k2, k);
    KeptChain(cx, m, k1, k);
  }

  /** The value of expression e, from state st. */
  function Meaning(cx: Cx, e: Expr, st: State): Result
    requires ExprOk(e, Lens(cx.fr)) && Shaped(st, Lens(cx.fr))
  {
    Eval(cx.env.world, e, st, Lens(cx.fr))
  }

  lemma Protected(cx: Cx, e: Expr, st: State, m: Mach, d: nat, tg: Targets) returns (k: Mach)
    requires CxOk(cx) && ExprOk(e, Lens(cx.fr)) && Rep(cx, st, m, d)
        && CodeAt(cx.c, m.pc, ProtectedCode(cx.fr, e, d), tg)
    ensures ProtectedResult(cx, Meaning(cx, e, st), m, k, |ProtectedCode(cx.fr, e, d)|, d, tg)
    decreases e, 3
  {
    hide ExprCode, ExprOk, Eval, PlaceCode, Find, PlaceOk, Apply, BinCode;
    var code := ExprCode(cx.fr, e, d + 1);
    Split3(cx.c, m.pc, P(Push(RAX)), code, P(Pop(RDI)), tg);
    RepOk(cx, st, m, d);
    hide CodeAt, Step, Run, Rep, Reach, Kept, Get, Eval, ExprCode;
    var k1 := DoPush(cx, st, m, d, RAX, tg);
    var k2 := ExprSim(cx, e, st, k1, d + 1, tg);
    match Meaning(cx, e, st)
    case Stop(f, tr) =>
      k := k2;
      ReachTrans(cx, m, k1, k);
    case Val(v, st1) =>
      k := PopProtected(cx, v, st1, m, k1, k2, |code|, d, tg);
  }

  /** The code of a place leaves the place's address in RAX. */
  lemma PlaceSim(cx: Cx, p: Place, st: State, m: Mach, d: nat, tg: Targets) returns (k: Mach)
    requires CxOk(cx) && PlaceOk(p, Lens(cx.fr)) && Rep(cx, st, m, d) && CodeAt(cx.c, m.pc, PlaceCode(cx.fr, p, d), tg)
    ensures Located(cx, p.x, Find(cx.env.world, p, st, Lens(cx.fr)), m, k, |PlaceCode(cx.fr, p, d)|, d, tg)
    decreases p, 1
  {
    match p
    case Local(x) =>
      k := DoLea(cx, st, m, d, x, RAX, tg);
    case Element(x, i) =>
      k := ElementSim(cx, x, i, st, m, d, tg);
  }

  lemma ElementMeaning(cx: Cx, x: nat, i: Expr, st: State)
    requires PlaceOk(Element(x, i), Lens(cx.fr)) && Shaped(st, Lens(cx.fr))
    ensures ExprOk(i, Lens(cx.fr)) && x < |cx.fr|
    ensures Find(cx.env.world, Element(x, i), st, Lens(cx.fr)) ==
            match Meaning(cx, i, st)
            case Stop(f, tr) => Nowhere(f, tr)
            case Val(v, st1) => if 0 <= v < cx.fr[x].len then At(v, st1) else Nowhere(IndexPanic, st1.trace)
  {}

  lemma ElementSim(cx: Cx, x: nat, i: Expr, st: State, m: Mach, d: nat, tg: Targets) returns (k: Mach)
    requires CxOk(cx) && PlaceOk(Element(x, i), Lens(cx.fr)) && Rep(cx, st, m, d)
        && CodeAt(cx.c, m.pc, PlaceCode(cx.fr, Element(x, i), d), tg)
    ensures Located(cx, x, Find(cx.env.world, Element(x, i), st, Lens(cx.fr)), m, k,
        |PlaceCode(cx.fr, Element(x, i), d)|, d, tg)
    decreases i, 4
  {
    hide CodeAt, Rep, Reach, Kept, Get, Eval, Find, Meaning, Addr;
    var code := ExprCode(cx.fr, i, d + 1);
    Split4(cx.c, m.pc, P(LeaLocal(RAX, cx.fr[x].off)), P(Push(RAX)), code, IndexCode(cx.fr, x), tg);
    RepOk(cx, st, m, d);
    ElementMeaning(cx, x, i, st);
    assert |PlaceCode(cx.fr, Element(x, i), d)| == |code| + 8;
    hide CodeAt, Step, Run, Rep, Reach, Kept, Get, PlaceCode, ExprCode, Find, Eval, Meaning, Addr, PlaceOk, ExprOk,
        IndexCode;
    var k0 := DoLea(cx, st, m, d, x, RAX, tg);
    var k1 := DoPush(cx, st, k0, d, RAX, tg);
    KeptChain(cx, m, k0, k1);
    var k2 := ExprSim(cx, i, st, k1, d + 1, tg);
    match Meaning(cx, i, st)
    case Stop(f, tr) =>
      k := k2;
      ReachTrans(cx, m, k1, k);
    case Val(v, st1) =>
      Saved(cx, k1, k2, Addr(cx, x, 0));
      RepOk(cx, st1, k2, d + 1);
      KeptChain(cx, m, k1, k2);
      k := IndexTail(cx, st1, k2, d, x, v, tg);
      FinishElement(cx, x, if 0 <= v < cx.fr[x].len then At(v, st1) else Nowhere(IndexPanic, st1.trace), m, k2, k,
          |code| + 2, d, tg);
  }

  lemma FinishElement(cx: Cx, x: nat, w: Where, m: Mach, k2: Mach, k: Mach, n: nat, d: nat, tg: Targets)
    requires x < |cx.fr| && Ok(k2) && Reach(cx, m, k2) && Kept(cx, m, k2) && k2.pc == m.pc + n
        && k2.regs[RSP] <= m.regs[RSP]
    requires Located(cx, x, w, k2, k, 6, d, tg)
    ensures Located(cx, x, w, m, k, n + 6, d, tg)
  {
    hide ExprCode, ExprOk, Eval, PlaceCode, Find, PlaceOk, Apply, BinCode;
    hide Rep, Reach, Kept;
    ReachTrans(cx, m, k2, k);
    if w.At? { KeptChain(cx, m, k2, k); }
  }

  /** A place, then code that computes from it. */
  lemma PlaceThen(cx: Cx, x: nat, i: nat, st: State, r: Result, m: Mach, k1: Mach, k: Mach, n1: nat, n2: nat, d: nat,
      tg: Targets)
    requires x < |cx.fr| && Ok(m) && m.regs[RSP] == cx.rbp - cx.size - 8 * d
    requires Located(cx, x, At(i, st), m, k1, n1, d, tg) && Computed(cx, r, k1, k, n2, d, tg)
    ensures Computed(cx, r, m, k, n1 + n2, d, tg)
  {
    hide ExprCode, ExprOk, Eval, PlaceCode, Find, PlaceOk, Apply, BinCode;
    hide Addr, Reach, Kept;
    ReachTrans(cx, m, k1, k);
    if r.Val? { KeptChain(cx, m, k1, k); }
  }

  lemma LoadSim(cx: Cx, p: Place, st: State, m: Mach, d: nat, tg: Targets) returns (k: Mach)
    requires CxOk(cx) && PlaceOk(p, Lens(cx.fr)) && Rep(cx, st, m, d)
        && CodeAt(cx.c, m.pc, ExprCode(cx.fr, Load(p), d), tg)
    ensures Computed(cx, Meaning(cx, Load(p), st), m, k, |ExprCode(cx.fr, Load(p), d)|, d, tg)
    decreases p, 2
  {
    CodeSplit(cx.c, m.pc, PlaceCode(cx.fr, p, d), P(LoadRax), tg);
    RepOk(cx, st, m, d);
    hide CodeAt, Step, Run, Rep, Reach, Kept, Get, PlaceCode, Find, Addr;
    var k1 := PlaceSim(cx, p, st, m, d, tg);
    match Find(cx.env.world, p, st, Lens(cx.fr))
    case Nowhere(f, tr) => k := k1;
    case At(i, st1) =>
      k := DoLoad(cx, st1, k1, d, p.x, i, tg);
      PlaceThen(cx, p.x, i, st1, Val(st1.vars[p.x][i], st1), m, k1, k, |PlaceCode(cx.fr, p, d)|, 1, d, tg);
  }

  lemma StoreTail(cx: Cx, v: I64, st: State, m: Mach, k1: Mach, n: nat, d: nat, x: nat, i: nat,
      tg: Targets) returns (k: Mach)
    requires CxOk(cx) && x < |cx.fr| && i < cx.fr[x].len && Ok(m) && m.regs[RSP] == cx.rbp - cx.size - 8 * d
    requires Computed(cx, Val(v, st), m, k1, n, d, tg) && k1.regs[RDI] == Addr(cx, x, i)
    requires CodeAt(cx.c, m.pc + n, P(StoreRdi), tg)
    ensures i < |st.vars[x]| && Computed(cx, Val(v, Put(st, x, i, v)), m, k, n + 1, d, tg)
  {
    hide ExprCode, ExprOk, Eval, PlaceCode, Find, PlaceOk, Apply, BinCode;
    hide CodeAt, Addr;
    k := DoStore(cx, st, k1, d, x, i, v, tg);
    hide Reach, Kept;
    KeptChain(cx, m, k1, k);
  }

  lemma AssignParts(fr: Frame, p: Place, e: Expr, d: nat)
    requires ExprOk(Assign(p, e), Lens(fr))
    ensures PlaceOk(p, Lens(fr)) && ExprOk(e, Lens(fr)) && p.x < |fr|
    ensures ExprCode(fr, Assign(p, e), d) == PlaceCode(fr, p, d) + ProtectedCode(fr, e, d) + P(StoreRdi)
  {
    hide P, PlaceCode;
  }

  lemma AssignSim(cx: Cx, p: Place, e: Expr, st: State, m: Mach, d: nat, tg: Targets) returns (k: Mach)
    requires CxOk(cx) && ExprOk(Assign(p, e), Lens(cx.fr)) && Rep(cx, st, m, d)
        && CodeAt(cx.c, m.pc, ExprCode(cx.fr, Assign(p, e), d), tg)
    ensures Computed(cx, Meaning(cx, Assign(p, e), st), m, k, |ExprCode(cx.fr, Assign(p, e), d)|, d, tg)
    decreases Assign(p, e), 0
  {
    hide CodeAt, Rep, Reach, Kept, Get, Find, Addr, Step, Run, PlaceCode, ProtectedCode, ExprCode, ExprOk, PlaceOk,
      CxOk;
    AssignParts(cx.fr, p, e, d);
    var place, prot := PlaceCode(cx.fr, p, d), ProtectedCode(cx.fr, e, d);
    Split3(cx.c, m.pc, place, prot, P(StoreRdi), tg);
    RepOk(cx, st, m, d);
    var k1 := PlaceSim(cx, p, st, m, d, tg);
    match Find(cx.env.world, p, st, Lens(cx.fr))
    case Nowhere(f, tr) => k := k1;
    case At(i, st1) =>
      RepOk(cx, st1, k1, d);
      var k2 := Protected(cx, e, st1, k1, d, tg);
      match Meaning(cx, e, st1)
      case Stop(f, tr) =>
        k := k2;
        ReachTrans(cx, m, k1, k);
      case Val(v, st2) =>
        k := StoreTail(cx, v, st2, k1, k2, |prot|, d, p.x, i, tg);
        PlaceThen(cx, p.x, i, st1, Val(v, Put(st2, p.x, i, v)), m, k1, k, |place|, |prot| + 1, d, tg);
  }

  lemma CommaSim(cx: Cx, a: Expr, b: Expr, st: State, m: Mach, d: nat, tg: Targets) returns (k: Mach)
    requires CxOk(cx) && ExprOk(Comma(a, b), Lens(cx.fr)) && Rep(cx, st, m, d)
        && CodeAt(cx.c, m.pc, ExprCode(cx.fr, Comma(a, b), d), tg)
    ensures Computed(cx, Meaning(cx, Comma(a, b), st), m, k, |ExprCode(cx.fr, Comma(a, b), d)|, d, tg)
    decreases Comma(a, b), 0
  {
    hide CodeAt, Rep, Reach, Kept, Get, Step, Run;
    var ca, cb := ExprCode(cx.fr, a, d), ExprCode(cx.fr, b, d);
    CodeSplit(cx.c, m.pc, ca, cb, tg);
    assert |ExprCode(cx.fr, Comma(a, b), d)| == |ca| + |cb| && ExprOk(a, Lens(cx.fr)) && ExprOk(b, Lens(cx.fr));
    hide ExprCode, ExprOk;
    RepOk(cx, st, m, d);
    hide CodeAt, Step, Run, Rep, Reach, Get, Kept;
    var k1 := ExprSim(cx, a, st, m, d, tg);
    match Meaning(cx, a, st)
    case Stop(f, tr) => k := k1;
    case Val(v, st1) =>
      RepOk(cx, st1, k1, d);
      k := ExprSim(cx, b, st1, k1, d, tg);
      Prefix(cx, Meaning(cx, b, st1), m, k1, k, |ca|, |cb|, d, tg);
  }

  lemma BinMeaning(cx: Cx, op: BinOp, a: Expr, b: Expr, st: State)
    requires ExprOk(Bin(op, a, b), Lens(cx.fr)) && Shaped(st, Lens(cx.fr))
    ensures ExprOk(a, Lens(cx.fr)) && ExprOk(b, Lens(cx.fr))
    ensures Meaning(cx, Bin(op, a, b), st) ==
            match Meaning(cx, b, st)
            case Stop(f, tr) => Stop(f, tr)
            case Val(vb, st1) =>
              match Meaning(cx, a, st1)
              case Stop(f, tr) => Stop(f, tr)
              case Val(va, st2) => if Apply(op, va, vb).None? then Stop(DivideError, st2.trace)
                  else Val(Apply(op, va, vb).value, st2)
  {
    hide Apply;
  }

  lemma BinParts(fr: Frame, op: BinOp, a: Expr, b: Expr, d: nat)
    requires ExprOk(Bin(op, a, b), Lens(fr))
    ensures ExprOk(a, Lens(fr)) && ExprOk(b, Lens(fr))
    ensures ExprCode(fr, Bin(op, a, b), d) == ExprCode(fr, b, d) + ProtectedCode(fr, a, d) + BinCode(op)
  {
    hide BinCode, P;
  }

  lemma BinSim(cx: Cx, op: BinOp, a: Expr, b: Expr, st: State, m: Mach, d: nat, tg: Targets) returns (k: Mach)
    requires CxOk(cx) && ExprOk(Bin(op, a, b), Lens(cx.fr)) && Rep(cx, st, m, d)
        && CodeAt(cx.c, m.pc, ExprCode(cx.fr, Bin(op, a, b), d), tg)
    ensures Computed(cx, Meaning(cx, Bin(op, a, b), st), m, k, |ExprCode(cx.fr, Bin(op, a, b), d)|, d, tg)
    decreases Bin(op, a, b), 0
  {
    hide ExprCode, ExprOk, Eval, Meaning, CodeAt, Step, Run, Rep, Reach, Get, Kept, ProtectedCode, BinCode, Apply, CxOk,
      Shaped, Lens;
    BinParts(cx.fr, op, a, b, d);
    var cb, prot, oc := ExprCode(cx.fr, b, d), ProtectedCode(cx.fr, a, d), BinCode(op);
    Split3(cx.c, m.pc, cb, prot, oc, tg);
    RepOk(cx, st, m, d);
    BinMeaning(cx, op, a, b, st);
    var k1 := ExprSim(cx, b, st, m, d, tg);
    match Meaning(cx, b, st)
    case Stop(f, tr) => k := k1;
    case Val(vb, st1) =>
      RepOk(cx, st1, k1, d);
      var k2 := Protected(cx, a, st1, k1, d, tg);
      match Meaning(cx, a, st1)
      case Stop(f, tr) =>
        k := k2;
        ReachTrans(cx, m, k1, k);
      case Val(va, st2) =>
        RepOk(cx, st2, k2, d);
        k := OpSim(cx, op, va, vb, st2, k2, d, tg);
        var r := if Apply(op, va, vb).None? then Stop(DivideError, st2.trace) else Val(Apply(op, va, vb).value, st2);
        KeptChain(cx, m, k1, k2);
        Prefix(cx, r, m, k2, k, |cb| + |prot|, |oc|, d, tg);
  }

  lemma UnarySim(cx: Cx, e: Expr, a: Expr, i: Instr, st: State, m: Mach, d: nat, tg: Targets) returns (k: Mach)
    requires (e == Neg(a) && i == NegRax) || (e == BitNot(a) && i == NotRax)
    requires CxOk(cx) && ExprOk(e, Lens(cx.fr)) && Rep(cx, st, m, d) && CodeAt(cx.c, m.pc, ExprCode(cx.fr, e, d), tg)
    ensures Computed(cx, Meaning(cx, e, st), m, k, |ExprCode(cx.fr, e, d)|, d, tg)
    decreases e, 0
  {
    hide CodeAt, Run, Rep, Reach, Get, Kept, Step, ExprCode, ExprOk, Eval, Minus, Complement, Meaning;
    UnaryParts(cx, e, a, i, d);
    var ca := ExprCode(cx.fr, a, d);
    CodeSplit(cx.c, m.pc, ca, P(i), tg);
    RepOk(cx, st, m, d);
    UnaryMeaning(cx, e, a, st);
    var k1 := ExprSim(cx, a, st, m, d, tg);
    match Meaning(cx, a, st)
    case Stop(f, tr) => k := k1;
    case Val(v, st1) =>
      RepOk(cx, st1, k1, d);
      UnaryStep(cx.env, k1, i, v);
      k := ThenCompute(cx, v, st1, m, k1, |ca|, d, i, if e.Neg? then Minus(v) else Complement(v), tg);
  }

  lemma UnaryParts(cx: Cx, e: Expr, a: Expr, i: Instr, d: nat)
    requires ((e == Neg(a) && i == NegRax) || (e == BitNot(a) && i == NotRax)) && ExprOk(e, Lens(cx.fr))
    ensures ExprOk(a, Lens(cx.fr)) && ExprCode(cx.fr, e, d) == ExprCode(cx.fr, a, d) + P(i)
  {}

  lemma UnaryMeaning(cx: Cx, e: Expr, a: Expr, st: State)
    requires (e == Neg(a) || e == BitNot(a)) && ExprOk(e, Lens(cx.fr)) && ExprOk(a, Lens(cx.fr))
        && Shaped(st, Lens(cx.fr))
    ensures Meaning(cx, e, st) ==
            match Meaning(cx, a, st)
            case Stop(f, tr) => Stop(f, tr)
            case Val(v, st1) => Val(if e.Neg? then Minus(v) else Complement(v), st1)
  {}

  lemma UnaryStep(env: Env, m: Mach, i: Instr, v: I64)
    requires Ok(m) && m.regs[RAX] == v && (i == NegRax || i == NotRax)
    ensures Step(env, i, m).regs[RAX] == if i == NegRax then Minus(v) else Complement(v)
  {}

  /** The old value is kept on the stack while the right-hand side is evaluated. */
  function OpMiddle(fr: Frame, op: BinOp, e: Expr, d: nat): seq<Sym>
    requires ExprOk(e, Lens(fr))
  {
    P(LoadRax) + P(Push(RAX)) + ExprCode(fr, e, d + 1) + (P(MovReg(RDI, RAX)) + P(Pop(RAX))) + BinCode(op)
  }

  function OpResult(cx: Cx, op: BinOp, was: I64, r: Result): Result {
    match r
    case Stop(_, _) => r
    case Val(v, st) => if Apply(op, was, v).None? then Stop(DivideError, st.trace) else Val(Apply(op, was, v).value, st)
  }

  /** `mov rdi, rax; pop rax`: the operands change places. */
  lemma SwapOperands(cx: Cx, v: I64, st: State, m: Mach, d: nat, was: int, tg: Targets) returns (k: Mach)
    requires Rep(cx, st, m, d + 1) && m.regs[RAX] == v && Get(m.mem, m.regs[RSP]) == was
    requires CodeAt(cx.c, m.pc, P(MovReg(RDI, RAX)) + P(Pop(RAX)), tg)
    ensures Reach(cx, m, k) && Rep(cx, st, k, d) && Kept(cx, m, k) && k.pc == m.pc + 2 && k.regs[RAX] == was
        && k.regs[RDI] == v
  {
    hide Run, Reach, CodeAt, Rep, Kept, Step, Get;
    RepOk(cx, st, m, d + 1);
    CodeSplit(cx.c, m.pc, P(MovReg(RDI, RAX)), P(Pop(RAX)), tg);
    var k1 := DoCompute(cx, st, m, d + 1, MovReg(RDI, RAX), tg);
    MovRegStep(cx.env, RDI, RAX, m);
    RepOk(cx, st, k1, d + 1);
    k := DoPop(cx, st, k1, d, RAX, tg);
    KeptSame(cx, k1, k);
    KeptChain(cx, m, k1, k);
  }

  /** The first half: the old value ends up under the value of the right-hand side. */
  lemma OpHead(cx: Cx, e: Expr, was: I64, st: State, m: Mach, d: nat, tg: Targets) returns (k: Mach)
    requires CxOk(cx) && ExprOk(e, Lens(cx.fr)) && Rep(cx, st, m, d) && m.regs[RAX] == was
    requires CodeAt(cx.c, m.pc, P(Push(RAX)) + ExprCode(cx.fr, e, d + 1), tg)
    ensures Ok(m) && Reach(cx, m, k)
    ensures match Meaning(cx, e, st)
            case Stop(f, tr) => Faulted(f, tr, k, tg)
            case Val(v, st1) =>
              && Rep(cx, st1, k, d + 1) && k.pc == m.pc + 1 + |ExprCode(cx.fr, e, d + 1)| && k.regs[RAX] == v
              && Get(k.mem, k.regs[RSP]) == was && Kept(cx, m, k) && k.regs[RSP] == m.regs[RSP] - 8
    decreases e, 3
  {
    hide ExprCode, ExprOk, Eval, PlaceCode, Find, PlaceOk, Apply, BinCode;
    var code := ExprCode(cx.fr, e, d + 1);
    CodeSplit(cx.c, m.pc, P(Push(RAX)), code, tg);
    RepOk(cx, st, m, d);
    hide CodeAt, Step, Run, Rep, Reach, Get, Kept, ExprCode;
    var k2 := DoPush(cx, st, m, d, RAX, tg);
    k := ExprSim(cx, e, st, k2, d + 1, tg);
    ReachTrans(cx, m, k2, k);
    match Meaning(cx, e, st)
    case Stop(f, tr) =>
    case Val(v, st1) =>
      Saved(cx, k2, k, was);
      RepOk(cx, st1, k, d + 1);
      KeptChain(cx, m, k2, k);
  }

  /** The second half: swap the operands and apply the operator. */
  lemma OpTail(cx: Cx, op: BinOp, was: I64, v: I64, st: State, m0: Mach, m: Mach, n: nat, d: nat,
      tg: Targets) returns (k: Mach)
    requires Ok(m0) && Reach(cx, m0, m) && Kept(cx, m0, m) && m.pc == m0.pc + n
        && m0.regs[RSP] == cx.rbp - cx.size - 8 * d
    requires Rep(cx, st, m, d + 1) && m.regs[RAX] == v && Get(m.mem, m.regs[RSP]) == was
    requires CodeAt(cx.c, m.pc, P(MovReg(RDI, RAX)) + P(Pop(RAX)), tg) && CodeAt(cx.c, m.pc + 2, BinCode(op), tg)
    ensures Computed(cx, OpResult(cx, op, was, Val(v, st)), m0, k, n + 2 + |BinCode(op)|, d, tg)
  {
    hide ExprCode, ExprOk, Eval, PlaceCode, Find, PlaceOk, Apply, BinCode;
    RepOk(cx, st, m, d + 1);
    hide CodeAt, Step, Run, Rep, Reach, Get, Kept, BinCode, Apply;
    var k4 := SwapOperands(cx, v, st, m, d, was, tg);
    RepOk(cx, st, k4, d);
    KeptChain(cx, m0, m, k4);
    k := OpSim(cx, op, was, v, st, k4, d, tg);
    Prefix(cx, OpResult(cx, op, was, Val(v, st)), m0, k4, k, n + 2, |BinCode(op)|, d, tg);
  }

  lemma OpMiddleSim(cx: Cx, op: BinOp, e: Expr, x: nat, i: nat, st: State, m: Mach, d: nat,
      tg: Targets) returns (k: Mach)
    requires CxOk(cx) && ExprOk(e, Lens(cx.fr)) && Rep(cx, st, m, d)
        && CodeAt(cx.c, m.pc, OpMiddle(cx.fr, op, e, d), tg)
    requires x < |cx.fr| && i < cx.fr[x].len && m.regs[RAX] == Addr(cx, x, i)
    ensures i < |st.vars[x]| && Computed(cx, OpResult(cx, op, st.vars[x][i], Meaning(cx, e, st)), m, k,
        |OpMiddle(cx.fr, op, e, d)|, d, tg)
    decreases e, 5
  {
    hide ExprCode, ExprOk, Eval, PlaceCode, Find, PlaceOk, Apply, BinCode;
    var code, swap, oc := P(Push(RAX)) + ExprCode(cx.fr, e, d + 1), P(MovReg(RDI, RAX)) + P(Pop(RAX)), BinCode(op);
    assert OpMiddle(cx.fr, op, e, d) == P(LoadRax) + code + swap + oc;
    Split4(cx.c, m.pc, P(LoadRax), code, swap, oc, tg);
    RepOk(cx, st, m, d);
    VarLength(cx, st, x);
    hide CodeAt, Step, Run, Rep, Reach, Get, Kept, Addr, BinCode, Apply, ExprCode, OpMiddle;
    var k1 := DoLoad(cx, st, m, d, x, i, tg);
    var was := st.vars[x][i];
    var k3 := OpHead(cx, e, was, st, k1, d, tg);
    match Meaning(cx, e, st)
    case Stop(f, tr) =>
      k := k3;
      ReachTrans(cx, m, k1, k);
    case Val(v, st1) =>
      KeptChain(cx, m, k1, k3);
      k := OpTail(cx, op, was, v, st1, m, k3, |code| + 1, d, tg);
  }

  lemma VarLength(cx: Cx, st: State, x: nat)
    requires Shaped(st, Lens(cx.fr)) && x < |cx.fr|
    ensures |st.vars| == |cx.fr| && |st.vars[x]| == cx.fr[x].len
  {
    assert Lens(cx.fr)[x] == cx.fr[x].len;
  }

  /** What follows the place in `place op= e`. */
  function OpStore(fr: Frame, op: BinOp, e: Expr, d: nat): seq<Sym>
    requires ExprOk(e, Lens(fr))
  {
    P(Push(RAX)) + OpMiddle(fr, op, e, d + 1) + P(Pop(RDI)) + P(StoreRdi)
  }

  lemma OpStoreSim(cx: Cx, op: BinOp, e: Expr, x: nat, i: nat, st: State, m: Mach, d: nat,
      tg: Targets) returns (k: Mach)
    requires CxOk(cx) && ExprOk(e, Lens(cx.fr)) && Rep(cx, st, m, d) && CodeAt(cx.c, m.pc, OpStore(cx.fr, op, e, d), tg)
    requires x < |cx.fr| && i < cx.fr[x].len && m.regs[RAX] == Addr(cx, x, i)
    ensures Computed(cx, Updated(cx, op, x, i, e, st), m, k, |OpStore(cx.fr, op, e, d)|, d, tg)
    decreases e, 6
  {
    hide CodeAt, Rep, Reach, Kept, Get, Put, CxOk, Addr;
    hide ExprCode, ExprOk, Eval, PlaceCode, Find, PlaceOk, Apply, BinCode;
    var mid := OpMiddle(cx.fr, op, e, d + 1);
    Split4(cx.c, m.pc, P(Push(RAX)), mid, P(Pop(RDI)), P(StoreRdi), tg);
    RepOk(cx, st, m, d);
    VarLength(cx, st, x);
    hide CodeAt, Step, Run, Rep, Reach, Get, OpMiddle, Addr, Kept, Put;
    var k2 := DoPush(cx, st, m, d, RAX, tg);
    var k3 := OpMiddleSim(cx, op, e, x, i, st, k2, d + 1, tg);
    match OpResult(cx, op, st.vars[x][i], Meaning(cx, e, st))
    case Stop(f, tr) =>
      k := k3;
      ReachTrans(cx, m, k2, k);
    case Val(w, st2) =>
      VarLength(cx, st2, x);
      var k4 := PopProtected(cx, w, st2, m, k2, k3, |mid|, d, tg);
      k := StoreTail(cx, w, st2, m, k4, |mid| + 2, d, x, i, tg);
  }

  /** What `place op= e` does once the place is known. */
  function Updated(cx: Cx, op: BinOp, x: nat, i: nat, e: Expr, st: State): Result
    requires ExprOk(e, Lens(cx.fr)) && Shaped(st, Lens(cx.fr)) && x < |cx.fr| && i < cx.fr[x].len
  {
    VarLength(cx, st, x);
    match OpResult(cx, op, st.vars[x][i], Meaning(cx, e, st))
    case Stop(f, tr) => Stop(f, tr)
    case Val(w, st2) => VarLength(cx, st2, x); Val(w, Put(st2, x, i, w))
  }

  lemma OpAssignMeaning(cx: Cx, op: BinOp, p: Place, e: Expr, st: State)
    requires ExprOk(OpAssign(op, p, e), Lens(cx.fr)) && Shaped(st, Lens(cx.fr))
    ensures ExprOk(e, Lens(cx.fr)) && PlaceOk(p, Lens(cx.fr)) && p.x < |cx.fr|
    ensures var w := Find(cx.env.world, p, st, Lens(cx.fr));
      Meaning(cx, OpAssign(op, p, e), st) == if w.Nowhere? then Stop(w.f, w.trace)
          else Updated(cx, op, p.x, w.i, e, w.st)
  {
    hide Apply, Find, Put;
  }

  lemma OpAssignSim(cx: Cx, op: BinOp, p: Place, e: Expr, st: State, m: Mach, d: nat, tg: Targets) returns (k: Mach)
    requires CxOk(cx) && ExprOk(OpAssign(op, p, e), Lens(cx.fr)) && Rep(cx, st, m, d)
        && CodeAt(cx.c, m.pc, ExprCode(cx.fr, OpAssign(op, p, e), d), tg)
    ensures Computed(cx, Meaning(cx, OpAssign(op, p, e), st), m, k, |ExprCode(cx.fr, OpAssign(op, p, e), d)|, d, tg)
    decreases OpAssign(op, p, e), 0
  {
    hide CodeAt, Rep, Reach, Kept, Get, ExprCode, Eval, Meaning, Apply, OpResult, Updated, Addr, OpStore, PlaceCode;
    var place, tail := PlaceCode(cx.fr, p, d), OpStore(cx.fr, op, e, d);
    OpAssignCode(cx.fr, op, p, e, d);
    CodeSplit(cx.c, m.pc, place, tail, tg);
    assert PlaceOk(p, Lens(cx.fr)) && ExprOk(e, Lens(cx.fr)) && p.x < |cx.fr|;
    RepOk(cx, st, m, d);
    OpAssignMeaning(cx, op, p, e, st);
    hide ExprCode, ExprOk, PlaceOk, Eval, Meaning, Apply, OpResult, Updated, CodeAt, Step, Run, Rep, Reach, Get,
        PlaceCode, OpStore, Find, Addr, Kept;
    var k1 := PlaceSim(cx, p, st, m, d, tg);
    match Find(cx.env.world, p, st, Lens(cx.fr))
    case Nowhere(f, tr) => k := k1;
    case At(i, st1) =>
      RepOk(cx, st1, k1, d);
      VarLength(cx, st1, p.x);
      k := OpStoreSim(cx, op, e, p.x, i, st1, k1, d, tg);
      PlaceThen(cx, p.x, i, st1, Updated(cx, op, p.x, i, e, st1), m, k1, k, |place|, |tail|, d, tg);
  }

  lemma OpAssignCode(fr: Frame, op: BinOp, p: Place, e: Expr, d: nat)
    requires ExprOk(OpAssign(op, p, e), Lens(fr))
    ensures ExprCode(fr, OpAssign(op, p, e), d) == PlaceCode(fr, p, d) + OpStore(fr, op, e, d)
  {
    hide PlaceCode, BinCode, P;
    var code := ExprCode(fr, e, d + 2);
    var swap := P(MovReg(RDI, RAX)) + P(Pop(RAX));
    assert OpStore(fr, op, e, d) == P(Push(RAX)) + (P(LoadRax) + P(Push(RAX)) + code + swap + BinCode(op))
        + P(Pop(RDI)) + P(StoreRdi);
  }

  lemma NotSim(cx: Cx, a: Expr, st: State, m: Mach, d: nat, tg: Targets) returns (k: Mach)
    requires CxOk(cx) && ExprOk(Not(a), Lens(cx.fr)) && Rep(cx, st, m, d)
        && CodeAt(cx.c, m.pc, ExprCode(cx.fr, Not(a), d), tg)
    ensures Computed(cx, Meaning(cx, Not(a), st), m, k, |ExprCode(cx.fr, Not(a), d)|, d, tg)
    decreases Not(a), 0
  {
    hide CodeAt, Rep, Reach, Kept, Get, Step, Run;
    var ca := ExprCode(cx.fr, a, d);
    assert ExprCode(cx.fr, Not(a), d) == ca + (P(TestRax) + P(Setcc(E)));
    CodeSplit(cx.c, m.pc, ca, P(TestRax) + P(Setcc(E)), tg);
    RepOk(cx, st, m, d);
    assert ExprOk(a, Lens(cx.fr)) && Meaning(cx, Not(a), st)
        == match Meaning(cx, a, st) case Stop(f, tr) => Stop(f, tr) case Val(v, st1) => Val(Truth(v == 0), st1);
    hide CodeAt, Step, Run, Rep, Reach, Get, Kept, Wrap, ExprCode, ExprOk, Eval, Meaning, Truth;
    var k1 := ExprSim(cx, a, st, m, d, tg);
    match Meaning(cx, a, st)
    case Stop(f, tr) => k := k1;
    case Val(v, st1) =>
      RepOk(cx, st1, k1, d);
      k := TestSet(cx, v, st1, k1, d, tg);
      Prefix(cx, Val(Truth(v == 0), st1), m, k1, k, |ca|, 2, d, tg);
  }

  lemma TestSet(cx: Cx, v: I64, st: State, m: Mach, d: nat, tg: Targets) returns (k: Mach)
    requires Rep(cx, st, m, d) && m.regs[RAX] == v && CodeAt(cx.c, m.pc, P(TestRax) + P(Setcc(E)), tg)
    ensures Computed(cx, Val(Truth(v == 0), st), m, k, 2, d, tg)
  {
    hide Run, Reach, CodeAt, Rep, Kept, Step;
    RepOk(cx, st, m, d);
    TestStep(cx.env, m);
    SetccStep(cx.env, E, Step(cx.env, TestRax, m));
    Next2(cx, m, TestRax, Setcc(E), tg);
    k := Step(cx.env, Setcc(E), Step(cx.env, TestRax, m));
    Quiet(cx, st, m, k, d);
  }

  // Short-circuit operators.

  /** `test rax, rax` and a conditional jump. */
  lemma JumpAt(c: seq<Instr>, pc: int, s: Sym, tg: Targets)
    requires CodeAt(c, pc, [s], tg)
    ensures 0 <= pc < |c| && c[pc] == Fix(s, pc, tg)
  {
    assert c[pc + 0] == Fix([s][0], pc + 0, tg);
  }

  lemma TestJump(cx: Cx, v: I64, st: State, m: Mach, d: nat, cc: Cc, l: Label, tg: Targets) returns (k: Mach)
    requires cc == E || cc == NE
    requires Rep(cx, st, m, d) && m.regs[RAX] == v && CodeAt(cx.c, m.pc, P(TestRax) + [SymJcc(cc, l)], tg)
    ensures Reach(cx, m, k) && Rep(cx, st, k, d) && Kept(cx, m, k) && k.regs == m.regs && k.mem == m.mem
    ensures k.pc == m.pc + 2 + (if (v == 0) == (cc == E) then Displacement(l, m.pc + 1, tg) else 0)
  {
    hide Run, Reach, CodeAt, Rep, Kept, Step;
    RepOk(cx, st, m, d);
    CodeSplit(cx.c, m.pc, P(TestRax), [SymJcc(cc, l)], tg);
    Next(cx, m, TestRax, tg);
    var k1 := Step(cx.env, TestRax, m);
    TestStep(cx.env, m);
    JumpAt(cx.c, k1.pc, SymJcc(cc, l), tg);
    ReachStep(cx, k1);
    k := Step(cx.env, Jcc(cc, Displacement(l, k1.pc, tg)), k1);
    JccStep(cx.env, cc, Displacement(l, k1.pc, tg), k1);
    ReachTrans(cx, m, k1, k);
    Quiet(cx, st, m, k, d);
  }

  lemma DoJump(cx: Cx, st: State, m: Mach, d: nat, l: Label, tg: Targets) returns (k: Mach)
    requires Rep(cx, st, m, d) && CodeAt(cx.c, m.pc, [SymJmp(l)], tg)
    ensures Reach(cx, m, k) && Rep(cx, st, k, d) && Kept(cx, m, k) && k.regs == m.regs && k.mem == m.mem
    ensures k.pc == m.pc + 1 + Displacement(l, m.pc, tg)
  {
    hide Run, Reach, CodeAt, Rep, Kept, Step;
    RepOk(cx, st, m, d);
    JumpAt(cx.c, m.pc, SymJmp(l), tg);
    ReachStep(cx, m);
    k := Step(cx.env, Jmp(Displacement(l, m.pc, tg)), m);
    JmpStep(cx.env, Displacement(l, m.pc, tg), m);
    Quiet(cx, st, m, k, d);
  }

  /** Behind both operands: a load for "both", a jump over the load for "decided". */
  lemma LastLoad(cx: Cx, both: I64, decided: I64, st: State, m: Mach, d: nat, tg: Targets) returns (k: Mach)
    requires Rep(cx, st, m, d) && CodeAt(cx.c, m.pc, P(MovImm(RAX, both)) + [SymJmp(Rel(1))]
        + P(MovImm(RAX, decided)), tg)
    ensures Computed(cx, Val(both, st), m, k, 3, d, tg)
  {
    hide CodeAt, Step, Run, Rep, Reach, Kept, MovImm;
    RepOk(cx, st, m, d);
    Split3(cx.c, m.pc, P(MovImm(RAX, both)), [SymJmp(Rel(1))], P(MovImm(RAX, decided)), tg);
    var k1 := DoMovImm(cx, st, m, d, RAX, both, tg);
    RepOk(cx, st, k1, d);
    k := DoJump(cx, st, k1, d, Rel(1), tg);
    KeptChain(cx, m, k1, k);
  }

  function Circuit(cc: Cc, v: I64, decided: I64, both: I64, r: Result, st: State): Result {
    if (v == 0) == (cc == E) then Val(decided, st) else Second(cc, decided, both, r)
  }

  function Second(cc: Cc, decided: I64, both: I64, r: Result): Result {
    match r
    case Stop(_, _) => r
    case Val(w, st) => Val(if (w == 0) == (cc == E) then decided else both, st)
  }

  /** Both operands, the second one only if the first does not decide. */
  function Decided(cx: Cx, a: Expr, b: Expr, cc: Cc, both: I64, decided: I64, st: State): Result
    requires ExprOk(a, Lens(cx.fr)) && ExprOk(b, Lens(cx.fr)) && Shaped(st, Lens(cx.fr))
  {
    match Meaning(cx, a, st)
    case Stop(f, tr) => Stop(f, tr)
    case Val(v, st1) => Circuit(cc, v, decided, both, Meaning(cx, b, st1), st1)
  }

  /** The second operand and what follows it. */
  lemma SecondSim(cx: Cx, b: Expr, cc: Cc, both: I64, decided: I64, st: State, m: Mach, d: nat,
      tg: Targets) returns (k: Mach)
    requires cc == E || cc == NE
    requires CxOk(cx) && ExprOk(b, Lens(cx.fr)) && Rep(cx, st, m, d)
    requires CodeAt(cx.c, m.pc, ExprCode(cx.fr, b, d) + (P(TestRax) + [SymJcc(cc, Rel(2))])
        + (P(MovImm(RAX, both)) + [SymJmp(Rel(1))] + P(MovImm(RAX, decided))), tg)
    ensures Computed(cx, Second(cc, decided, both, Meaning(cx, b, st)), m, k, |ExprCode(cx.fr, b, d)| + 5, d, tg)
    decreases b, 3
  {
    hide CodeAt, Rep, Reach, Kept, Get, ExprCode, ExprOk, Eval, Meaning, Step, Run, CxOk, MovImm;
    var cb, last := ExprCode(cx.fr, b, d), P(MovImm(RAX, both)) + [SymJmp(Rel(1))] + P(MovImm(RAX, decided));
    Split3(cx.c, m.pc, cb, P(TestRax) + [SymJcc(cc, Rel(2))], last, tg);
    Split3(cx.c, m.pc + |cb| + 2, P(MovImm(RAX, both)), [SymJmp(Rel(1))], P(MovImm(RAX, decided)), tg);
    RepOk(cx, st, m, d);
    var k1 := ExprSim(cx, b, st, m, d, tg);
    match Meaning(cx, b, st)
    case Stop(f, tr) => k := k1;
    case Val(w, st1) =>
      RepOk(cx, st1, k1, d);
      var k2 := TestJump(cx, w, st1, k1, d, cc, Rel(2), tg);
      KeptChain(cx, m, k1, k2);
      if (w == 0) == (cc == E) {
        k := DoMovImm(cx, st1, k2, d, RAX, decided, tg);
        KeptChain(cx, m, k2, k);
      } else {
        k := LastLoad(cx, both, decided, st1, k2, d, tg);
        Prefix(cx, Val(both, st1), m, k2, k, |cb| + 2, 3, d, tg);
      }
  }

  lemma CircuitParts(c: seq<Instr>, pc: int, ca: seq<Sym>, cb: seq<Sym>, cc: Cc, both: I64, decided: I64, tg: Targets)
    requires CodeAt(c, pc, ShortCircuit(ca, cb, cc, both, decided), tg)
    ensures CodeAt(c, pc, ca, tg) && CodeAt(c, pc + |ca|, P(TestRax) + [SymJcc(cc, Rel(|cb| + 4))], tg)
    ensures CodeAt(c, pc + |ca| + 2, cb + (P(TestRax) + [SymJcc(cc, Rel(2))])
        + (P(MovImm(RAX, both)) + [SymJmp(Rel(1))] + P(MovImm(RAX, decided))), tg)
    ensures CodeAt(c, pc + |ca| + |cb| + 6, P(MovImm(RAX, decided)), tg)
  {
    hide CodeAt, MovImm;
    var test, last := P(TestRax) + [SymJcc(cc, Rel(|cb| + 4))],
      P(MovImm(RAX, both)) + [SymJmp(Rel(1))] + P(MovImm(RAX, decided));
    var rest := cb + (P(TestRax) + [SymJcc(cc, Rel(2))]) + last;
    assert ShortCircuit(ca, cb, cc, both, decided) == ca + test + rest;
    Split3(c, pc, ca, test, rest, tg);
    Split3(c, pc + |ca| + 2, cb, P(TestRax) + [SymJcc(cc, Rel(2))], last, tg);
    Split3(c, pc + |ca| + 2 + |cb| + 2, P(MovImm(RAX, both)), [SymJmp(Rel(1))], P(MovImm(RAX, decided)), tg);
  }

  lemma ShortCircuitSim(cx: Cx, e: Expr, a: Expr, b: Expr, cc: Cc, both: I64, decided: I64, st: State, m: Mach,
      d: nat, tg: Targets) returns (k: Mach)
    requires (cc == E || cc == NE) && a < e && b < e
    requires CxOk(cx) && ExprOk(a, Lens(cx.fr)) && ExprOk(b, Lens(cx.fr)) && Rep(cx, st, m, d)
    requires CodeAt(cx.c, m.pc, ShortCircuit(ExprCode(cx.fr, a, d), ExprCode(cx.fr, b, d), cc, both, decided), tg)
    ensures Computed(cx, Decided(cx, a, b, cc, both, decided, st), m, k,
      |ExprCode(cx.fr, a, d)| + |ExprCode(cx.fr, b, d)| + 7, d, tg)
    decreases e, 0
  {
    hide ExprCode, ExprOk, Eval, Meaning, CodeAt, Step, Run, Rep, Reach, Get, Kept, ShortCircuit, CxOk, MovImm, Circuit;
    hide Decided, P, Shaped, Lens;
    var ca, cb := ExprCode(cx.fr, a, d), ExprCode(cx.fr, b, d);
    CircuitParts(cx.c, m.pc, ca, cb, cc, both, decided, tg);
    RepOk(cx, st, m, d);
    DecidedCases(cx, a, b, cc, both, decided, st);
    var k1 := ExprSim(cx, a, st, m, d, tg);
    match Meaning(cx, a, st)
    case Stop(f, tr) => k := k1;
    case Val(v, st1) =>
      RepOk(cx, st1, k1, d);
      k := CircuitRest(cx, b, cc, both, decided, v, st1, k1, d, tg);
      Prefix(cx, Circuit(cc, v, decided, both, Meaning(cx, b, st1), st1), m, k1, k, |ca|, |cb| + 7, d, tg);
  }

  lemma DecidedCases(cx: Cx, a: Expr, b: Expr, cc: Cc, both: I64, decided: I64, st: State)
    requires ExprOk(a, Lens(cx.fr)) && ExprOk(b, Lens(cx.fr)) && Shaped(st, Lens(cx.fr))
    ensures var r, q := Meaning(cx, a, st), Decided(cx, a, b, cc, both, decided, st);
      (r.Stop? ==> q == r) && (r.Val? ==> q == Circuit(cc, r.v, decided, both, Meaning(cx, b, r.st), r.st))
  {}

  /** Everything behind the first operand. */
  lemma CircuitRest(cx: Cx, b: Expr, cc: Cc, both: I64, decided: I64, v: I64, st: State, m: Mach, d: nat,
      tg: Targets) returns (k: Mach)
    requires (cc == E || cc == NE) && CxOk(cx) && ExprOk(b, Lens(cx.fr)) && Rep(cx, st, m, d) && m.regs[RAX] == v
    requires var cb := ExprCode(cx.fr, b, d);
      && CodeAt(cx.c, m.pc, P(TestRax) + [SymJcc(cc, Rel(|cb| + 4))], tg)
      && CodeAt(cx.c, m.pc + 2, cb + (P(TestRax) + [SymJcc(cc, Rel(2))])
                                + (P(MovImm(RAX, both)) + [SymJmp(Rel(1))] + P(MovImm(RAX, decided))), tg)
      && CodeAt(cx.c, m.pc + |cb| + 6, P(MovImm(RAX, decided)), tg)
    ensures Shaped(st, Lens(cx.fr))
    ensures Computed(cx, Circuit(cc, v, decided, both, Meaning(cx, b, st), st), m, k,
      |ExprCode(cx.fr, b, d)| + 7, d, tg)
    decreases b, 4
  {
    hide ExprCode, ExprOk, Eval, Meaning, CodeAt, Step, Run, Rep, Reach, Get, Kept, CxOk, MovImm, Second;
    RepOk(cx, st, m, d);
    var n := |ExprCode(cx.fr, b, d)|;
    var k1 := TestJump(cx, v, st, m, d, cc, Rel(n + 4), tg);
    if (v == 0) == (cc == E) {
      k := DoMovImm(cx, st, k1, d, RAX, decided, tg);
      KeptChain(cx, m, k1, k);
    } else {
      k := SecondSim(cx, b, cc, both, decided, st, k1, d, tg);
      Prefix(cx, Second(cc, decided, both, Meaning(cx, b, st)), m, k1, k, 2, n + 5, d, tg);
    }
  }

  // Clearing a local.

  lemma {:induction false} ZeroWordsGet(mem: Memory, a: int, n: nat, b: int, i: int)
    ensures b < a || b >= a + 8 * n ==> Get(ZeroWords(mem, a, n), b) == Get(mem, b)
    ensures b == a + 8 * i && 0 <= i < n ==> Get(ZeroWords(mem, a, n), b) == 0
    decreases n
  {
    if n > 0 {
      hide Get;
      ZeroWordsGet(mem, a, n - 1, b, i);
      WordStored(ZeroWords(mem, a, n - 1), a + 8 * (n - 1), 0, b);
    }
  }

  lemma WordStored(mem: Memory, a: int, v: int, b: int)
    ensures Get(mem[a := v], b) == if b == a then v else Get(mem, b)
  {}

  lemma ZeroVar(cx: Cx, st: State, mem: Memory, x: nat)
    requires CxOk(cx) && Shaped(st, Lens(cx.fr)) && VarsAt(cx, st.vars, mem) && x < |cx.fr|
    ensures VarsAt(cx, st.vars[x := Zeros(cx.fr[x].len)], ZeroWords(mem, Addr(cx, x, 0), cx.fr[x].len))
    ensures forall b :: b < cx.rbp - cx.size || b >= cx.rbp ==>
      Get(ZeroWords(mem, Addr(cx, x, 0), cx.fr[x].len), b) == Get(mem, b)
  {
    var n := cx.fr[x].len;
    var vars, mem' := st.vars[x := Zeros(n)], ZeroWords(mem, Addr(cx, x, 0), n);
    forall b | b < cx.rbp - cx.size || b >= cx.rbp
      ensures Get(mem', b) == Get(mem, b)
    {
      ZeroWordsGet(mem, Addr(cx, x, 0), n, b, 0);
    }
    forall y, j {:trigger vars[y][j]} | 0 <= y < |cx.fr| && 0 <= j < |vars[y]|
      ensures Get(mem', Addr(cx, y, j)) == vars[y][j]
    {
      VarLength(cx, st, y);
      ZeroWordsGet(mem, Addr(cx, x, 0), n, Addr(cx, y, j), j);
      if y != x {
        assert Apart(cx.fr[if x < y then x else y], cx.fr[if x < y then y else x]);
        assert vars[y][j] == st.vars[y][j];
      }
    }
  }

  lemma ZeroSim(cx: Cx, x: nat, st: State, m: Mach, d: nat, tg: Targets) returns (k: Mach)
    requires CxOk(cx) && x < |cx.fr| && Rep(cx, st, m, d) && CodeAt(cx.c, m.pc, ExprCode(cx.fr, Zero(x), d), tg)
    ensures Computed(cx, Meaning(cx, Zero(x), st), m, k, |ExprCode(cx.fr, Zero(x), d)|, d, tg)
  {
    RepOk(cx, st, m, d);
    if !cx.fr[x].isArray {
      k := ZeroScalar(cx, x, st, m, d, tg);
    } else {
      k := ZeroArray(cx, x, st, m, d, tg);
    }
  }

  /** The local cleared. */
  function Cleared(cx: Cx, st: State, x: nat): State
    requires x < |cx.fr| && |st.vars| == |cx.fr|
  {
    st.(vars := st.vars[x := Zeros(cx.fr[x].len)])
  }

  lemma ClearedRep(cx: Cx, st: State, x: nat, m: Mach, k: Mach, d: nat)
    requires CxOk(cx) && x < |cx.fr| && Rep(cx, st, m, d) && Ok(k) && k.status == Running && k.trace == m.trace
    requires k.regs[RBP] == m.regs[RBP] && k.regs[RSP] == m.regs[RSP]
        && k.mem == ZeroWords(m.mem, Addr(cx, x, 0), cx.fr[x].len)
    ensures |st.vars| == |cx.fr| && Rep(cx, Cleared(cx, st, x), k, d) && Kept(cx, m, k)
  {
    ZeroVar(cx, st, m.mem, x);
    VarLength(cx, st, x);
  }

  lemma ZeroScalar(cx: Cx, x: nat, st: State, m: Mach, d: nat, tg: Targets) returns (k: Mach)
    requires CxOk(cx) && x < |cx.fr| && !cx.fr[x].isArray && Rep(cx, st, m, d)
    requires CodeAt(cx.c, m.pc, P(MovImm(RAX, 0)) + P(StLocal(cx.fr[x].off, RAX)), tg)
    ensures |st.vars| == |cx.fr| && Computed(cx, Val(0, Cleared(cx, st, x)), m, k, 2, d, tg)
  {
    hide CodeAt, Step, Run, Reach, Kept, MovImm, ZeroWords, CxOk;
    var i := StLocal(cx.fr[x].off, RAX);
    ScalarLength(cx, x);
    CodeSplit(cx.c, m.pc, P(MovImm(RAX, 0)), P(i), tg);
    var k1 := DoMovImm(cx, st, m, d, RAX, 0, tg);
    Next(cx, k1, i, tg);
    k := Step(cx.env, i, k1);
    StoreStep(cx.env, cx.fr[x].off, RAX, k1);
    OneZero(k1.mem, Addr(cx, x, 0));
    ClearedRep(cx, st, x, k1, k, d);
    KeptChain(cx, m, k1, k);
  }

  lemma ScalarLength(cx: Cx, x: nat)
    requires CxOk(cx) && x < |cx.fr| && !cx.fr[x].isArray
    ensures cx.fr[x].len == 1
  {}

  lemma OneZero(mem: Memory, a: int)
    ensures ZeroWords(mem, a, 1) == mem[a := 0]
  {
    assert ZeroWords(mem, a, 0) == mem;
  }

  lemma ZeroArray(cx: Cx, x: nat, st: State, m: Mach, d: nat, tg: Targets) returns (k: Mach)
    requires CxOk(cx) && x < |cx.fr| && Rep(cx, st, m, d)
    requires CodeAt(cx.c, m.pc, P(LeaLocal(RDI, cx.fr[x].off)) + P(MovImm(RAX, 0))
        + P(MovImm(RCX, Wrap(8 * cx.fr[x].len))) + P(RepStosb), tg)
    ensures |st.vars| == |cx.fr| && Computed(cx, Val(0, Cleared(cx, st, x)), m, k, 4, d, tg)
  {
    hide Step, Run;
    var n := cx.fr[x].len;
    WrapInRange(8 * n);
    Split4(cx.c, m.pc, P(LeaLocal(RDI, cx.fr[x].off)), P(MovImm(RAX, 0)), P(MovImm(RCX, Wrap(8 * n))), P(RepStosb), tg);
    hide CodeAt, MovImm, Rep, Kept, Reach, Addr;
    RepOk(cx, st, m, d);
    var k1 := DoLea(cx, st, m, d, x, RDI, tg);
    var k2 := DoMovImm(cx, st, k1, d, RAX, 0, tg);
    KeptChain(cx, m, k1, k2);
    var k3 := DoMovImm(cx, st, k2, d, RCX, Wrap(8 * n), tg);
    KeptChain(cx, m, k2, k3);
    RepOk(cx, st, k3, d);
    Next(cx, k3, RepStosb, tg);
    k := Step(cx.env, RepStosb, k3);
    StosStep(cx.env, k3, n);
    ClearedRep(cx, st, x, k3, k, d);
    KeptChain(cx, m, k3, k);
  }

  lemma StosStep(env: Env, m: Mach, n: nat)
    requires Ok(m) && m.regs[RAX] == 0 && m.regs[RCX] == 8 * n && m.status == Running
    ensures var k := Step(env, RepStosb, m);
      && k.mem == ZeroWords(m.mem, m.regs[RDI], n) && k.status == Running && k.trace == m.trace && k.pc == m.pc + 1
      && k.regs[RAX] == 0 && k.regs[RSP] == m.regs[RSP] && k.regs[RBP] == m.regs[RBP]
  {}

  // Calls.

  /** The words vs lie on the stack in the order in which they were pushed. */
  ghost predicate Pushed(cx: Cx, vs: seq<I64>, m: Mach, d: nat) {
    forall j {:trigger vs[j]} :: 0 <= j < |vs| ==> Get(m.mem, cx.rbp - cx.size - 8 * d - 8 * (j + 1)) == vs[j]
  }

  function MeaningArgs(cx: Cx, args: seq<Expr>, st: State): ArgsResult
    requires (forall i :: 0 <= i < |args| ==> ExprOk(args[i], Lens(cx.fr))) && Shaped(st, Lens(cx.fr))
  {
    EvalArgs(cx.env.world, args, st, Lens(cx.fr))
  }

  ghost predicate ArgsPushed(cx: Cx, r: ArgsResult, m: Mach, k: Mach, n: nat, count: nat, d: nat, tg: Targets) {
    && Reach(cx, m, k)
    && match r
       case NoArgs(f, tr) => Faulted(f, tr, k, tg)
       case Args(vs, st) =>
         |vs| == count && k.pc == m.pc + n && Rep(cx, st, k, d + count) && Kept(cx, m, k) && Pushed(cx, vs, k, d)
  }

  lemma NoArguments(cx: Cx, st: State, m: Mach, d: nat, tg: Targets) returns (k: Mach)
    requires Rep(cx, st, m, d)
    ensures ArgsPushed(cx, MeaningArgs(cx, [], st), m, k, 0, 0, d, tg)
  {
    k := m;
    ReachSelf(cx, m);
  }

  lemma ArgsSim(cx: Cx, args: seq<Expr>, st: State, m: Mach, d: nat, tg: Targets) returns (k: Mach)
    requires CxOk(cx) && (forall i :: 0 <= i < |args| ==> ExprOk(args[i], Lens(cx.fr))) && Rep(cx, st, m, d)
    requires CodeAt(cx.c, m.pc, ArgsCode(cx.fr, args, d), tg)
    ensures ArgsPushed(cx, MeaningArgs(cx, args, st), m, k, |ArgsCode(cx.fr, args, d)|, |args|, d, tg)
    decreases args, 0
  {
    hide CodeAt, Rep, Reach, Kept, Get, Pushed, Eval, EvalArgs, MeaningArgs;
    if args == [] {
      k := NoArguments(cx, st, m, d, tg);
    } else {
      var last := |args| - 1;
      var init, e := args[..last], args[last];
      var ci, ce := ArgsCode(cx.fr, init, d), ExprCode(cx.fr, e, d + last);
      Split3(cx.c, m.pc, ci, ce, P(Push(RAX)), tg);
      RepOk(cx, st, m, d);
      ArgsMeaning(cx, args, st);
      assert |ArgsCode(cx.fr, args, d)| == |ci| + |ce| + 1;
      hide CodeAt, Step, Run, Rep, Reach, Get, Kept, Pushed, ExprCode, ArgsCode, Eval, EvalArgs, MeaningArgs, ExprOk;
      var k1 := ArgsSim(cx, init, st, m, d, tg);
      match MeaningArgs(cx, init, st)
      case NoArgs(f, tr) => k := k1;
      case Args(vs, st1) =>
        RepOk(cx, st1, k1, d + last);
        var k2 := ExprSim(cx, e, st1, k1, d + last, tg);
        match Meaning(cx, e, st1)
        case Stop(f, tr) =>
          k := k2;
          ReachTrans(cx, m, k1, k);
        case Val(v, st2) =>
          KeptChain(cx, m, k1, k2);
          RepOk(cx, st2, k2, d + last);
          k := DoPush(cx, st2, k2, d + last, RAX, tg);
          KeptChain(cx, m, k2, k);
          PushedSnoc(cx, vs, v, k1, k2, k, d);
    }
  }

  lemma ArgsMeaning(cx: Cx, args: seq<Expr>, st: State)
    requires args != [] && (forall i :: 0 <= i < |args| ==> ExprOk(args[i], Lens(cx.fr))) && Shaped(st, Lens(cx.fr))
    ensures MeaningArgs(cx, args, st) ==
            match MeaningArgs(cx, args[..|args| - 1], st)
            case NoArgs(f, tr) => NoArgs(f, tr)
            case Args(vs, st1) =>
              match Meaning(cx, args[|args| - 1], st1)
              case Stop(f, tr) => NoArgs(f, tr)
              case Val(v, st2) => Args(vs + [v], st2)
  {}

  lemma PushedSnoc(cx: Cx, vs: seq<I64>, v: I64, k1: Mach, k2: Mach, k: Mach, d: nat)
    requires Ok(k1) && Ok(k2) && Pushed(cx, vs, k1, d) && Kept(cx, k1, k2) && Kept(cx, k2, k)
    requires k1.regs[RSP] == k2.regs[RSP] == cx.rbp - cx.size - 8 * (d + |vs|)
    requires Get(k.mem, k2.regs[RSP] - 8) == v
    ensures Pushed(cx, vs + [v], k, d)
  {
    forall j {:trigger (vs + [v])[j]} | 0 <= j < |vs + [v]|
      ensures Get(k.mem, cx.rbp - cx.size - 8 * d - 8 * (j + 1)) == (vs + [v])[j]
    {
      if j < |vs| { assert (vs + [v])[j] == vs[j]; }
    }
  }

  /** The words on the stack, popped into the argument registers. */
  lemma {:induction false} PopArgsSim(cx: Cx, vs: seq<I64>, n: nat, st: State, m: Mach, d: nat,
      tg: Targets) returns (k: Mach)
    requires CxOk(cx) && n <= |vs| <= 6 && Rep(cx, st, m, d + n) && Pushed(cx, vs, m, d)
        && CodeAt(cx.c, m.pc, PopArgs(n), tg)
    requires forall j {:trigger vs[j]} :: n <= j < |vs| ==> m.regs[CallRegs()[j]] == vs[j]
    ensures Ok(m) && Reach(cx, m, k) && Rep(cx, st, k, d) && k.mem == m.mem && k.pc == m.pc + |PopArgs(n)|
    ensures forall j {:trigger vs[j]} :: 0 <= j < |vs| ==> k.regs[CallRegs()[j]] == vs[j]
    decreases n
  {
    hide CodeAt, Step, Run, Rep, Reach, Get, CxOk;
    RepOk(cx, st, m, d + n);
    if n == 0 {
      k := m;
      ReachSelf(cx, m);
    } else {
      var r := CallRegs()[n - 1];
      CodeSplit(cx.c, m.pc, P(Pop(r)), PopArgs(n - 1), tg);
      assert Get(m.mem, cx.rbp - cx.size - 8 * d - 8 * (n - 1 + 1)) == vs[n - 1];
      var k1 := DoPop(cx, st, m, d + n - 1, r, tg);
      k := PopArgsSim(cx, vs, n - 1, st, k1, d, tg);
      ReachTrans(cx, m, k1, k);
    }
  }

  /** The call itself, on an aligned stack. */
  lemma DoCall(cx: Cx, name: string, vs: seq<I64>, st: State, m: Mach, d: nat, tg: Targets) returns (k: Mach)
    requires CxOk(cx) && |vs| <= 6 && Rep(cx, st, m, d) && d % 2 == 0 && CodeAt(cx.c, m.pc, P(CallFn(name, |vs|)), tg)
    requires forall j {:trigger vs[j]} :: 0 <= j < |vs| ==> m.regs[CallRegs()[j]] == vs[j]
    ensures Computed(cx, Answered(cx.env.world, name, vs, st), m, k, 1, d, tg)
  {
    hide Step, Run, Reach, CodeAt, AfterCall;
    var i := CallFn(name, |vs|);
    Next(cx, m, i, tg);
    AlignedStack(cx, d);
    assert CallArgs(m, |vs|) == vs;
    k := Step(cx.env, i, m);
    CallStep(cx.env, name, vs, m);
    var a := cx.env.world(name, vs, m.trace);
    if a.Returns? {
      CallKeeps(cx.env.junk(name, |vs|, m), a.v, a.trace, m);
      StackKept(cx, st, m, k, a.trace, d);
    }
  }

  lemma CallStep(env: Env, name: string, vs: seq<I64>, m: Mach)
    requires Ok(m) && |vs| <= 6 && m.regs[RSP] % 16 == 0 && CallArgs(m, |vs|) == vs
    ensures Step(env, CallFn(name, |vs|), m) ==
            match env.world(name, vs, m.trace)
            case Returns(v, t) => AfterCall(env.junk(name, |vs|, m), v, t, m)
            case Stops(f, t) => m.(status := Stopped(f), trace := t)
  {}

  /** The locals are above the stack pointer. */
  lemma StackKept(cx: Cx, st: State, m: Mach, k: Mach, t: Trace, d: nat)
    requires CxOk(cx) && Rep(cx, st, m, d) && Ok(k) && k.status == Running && k.trace == t
    requires k.regs[RSP] == m.regs[RSP] && k.regs[RBP] == m.regs[RBP] && forall a :: a >= m.regs[RSP] ==>
      Get(k.mem, a) == Get(m.mem, a)
    ensures Rep(cx, st.(trace := t), k, d) && Kept(cx, m, k)
  {
    hide Get;
    forall x, i {:trigger st.vars[x][i]} | 0 <= x < |cx.fr| && 0 <= i < |st.vars[x]|
      ensures Get(k.mem, Addr(cx, x, i)) == st.vars[x][i]
    {
      VarLength(cx, st, x);
    }
  }

  lemma AlignedStack(cx: Cx, d: nat)
    requires CxOk(cx) && d % 2 == 0
    ensures (cx.rbp - cx.size - 8 * d) % 16 == 0
  {
    assert 8 * d == 16 * (d / 2);
  }

  lemma CallKeeps(j: Junk, v: int, t: Trace, m: Mach)
    requires Ok(m)
    ensures var k := AfterCall(j, v, t, m);
      && k.regs[RAX] == Wrap(v) && k.trace == t && k.status == m.status && k.pc == m.pc + 1
          && k.regs[RSP] == m.regs[RSP] && k.regs[RBP] == m.regs[RBP]
      && forall a :: a >= m.regs[RSP] ==> Get(k.mem, a) == Get(m.mem, a)
  {}

  lemma CallSim(cx: Cx, name: string, args: seq<Expr>, st: State, m: Mach, d: nat, tg: Targets) returns (k: Mach)
    requires CxOk(cx) && ExprOk(Call(name, args), Lens(cx.fr)) && Rep(cx, st, m, d)
    requires CodeAt(cx.c, m.pc, ExprCode(cx.fr, Call(name, args), d), tg)
    ensures Computed(cx, Meaning(cx, Call(name, args), st), m, k, |ExprCode(cx.fr, Call(name, args), d)|, d, tg)
    decreases args, 1
  {
    hide CodeAt, Rep, Reach, Kept, Get, Pushed, Eval, EvalArgs, PopArgs, CallCode;
    var n := |args|;
    var ca, pops, call := ArgsCode(cx.fr, args, d), PopArgs(n), CallCode(name, n, d);
    assert ExprCode(cx.fr, Call(name, args), d) == ca + pops + call;
    assert n <= 6 && forall i :: 0 <= i < n ==> ExprOk(args[i], Lens(cx.fr));
    Split3(cx.c, m.pc, ca, pops, call, tg);
    RepOk(cx, st, m, d);
    CallMeaning(cx, name, args, st);
    hide CodeAt, Step, Run, Rep, Reach, Get, Kept, Pushed, ExprCode, ArgsCode, PopArgs, CallCode, Eval, EvalArgs,
        Meaning, MeaningArgs, ExprOk;
    var k1 := ArgsSim(cx, args, st, m, d, tg);
    match MeaningArgs(cx, args, st)
    case NoArgs(f, tr) => k := k1;
    case Args(vs, st1) =>
      RepOk(cx, st1, k1, d + n);
      var k2 := PopArgsSim(cx, vs, n, st1, k1, d, tg);
      KeptSame(cx, k1, k2);
      KeptChain(cx, m, k1, k2);
      RepOk(cx, st1, k2, d);
      k := AlignedCall(cx, name, vs, st1, k2, d, tg);
      Prefix(cx, Answered(cx.env.world, name, vs, st1), m, k2, k, |ca| + |pops|, |call|, d, tg);
  }

  lemma CallMeaning(cx: Cx, name: string, args: seq<Expr>, st: State)
    requires ExprOk(Call(name, args), Lens(cx.fr)) && Shaped(st, Lens(cx.fr))
    ensures Meaning(cx, Call(name, args), st) ==
            match MeaningArgs(cx, args, st)
            case NoArgs(f, tr) => Stop(f, tr)
            case Args(vs, st1) => Answered(cx.env.world, name, vs, st1)
  {}

  /** The stack pointer is a multiple of 16 at the call, whatever the depth. */
  lemma AlignedCall(cx: Cx, name: string, vs: seq<I64>, st: State, m: Mach, d: nat, tg: Targets) returns (k: Mach)
    requires CxOk(cx) && |vs| <= 6 && Rep(cx, st, m, d) && CodeAt(cx.c, m.pc, CallCode(name, |vs|, d), tg)
    requires forall j {:trigger vs[j]} :: 0 <= j < |vs| ==> m.regs[CallRegs()[j]] == vs[j]
    ensures Computed(cx, Answered(cx.env.world, name, vs, st), m, k, |CallCode(name, |vs|, d)|, d, tg)
  {
    hide Step, Run, Get, Reach, Kept, Rep, CodeAt, CxOk, Answered, Computed;
    if d % 2 == 0 {
      k := DoCall(cx, name, vs, st, m, d, tg);
    } else {
      k := PaddedCall(cx, name, vs, st, m, d, tg);
    }
  }

  /** A word of padding around the call. */
  lemma PaddedCall(cx: Cx, name: string, vs: seq<I64>, st: State, m: Mach, d: nat, tg: Targets) returns (k: Mach)
    requires CxOk(cx) && |vs| <= 6 && Rep(cx, st, m, d) && d % 2 == 1
    requires CodeAt(cx.c, m.pc, P(SubRsp(8)) + P(CallFn(name, |vs|)) + P(AddRsp(8)), tg)
    requires forall j {:trigger vs[j]} :: 0 <= j < |vs| ==> m.regs[CallRegs()[j]] == vs[j]
    ensures Computed(cx, Answered(cx.env.world, name, vs, st), m, k, 3, d, tg)
  {
    hide Step, Run, Get, Reach, Kept, Rep, CodeAt, CxOk, Answered;
    RepOk(cx, st, m, d);
    Split3(cx.c, m.pc, P(SubRsp(8)), P(CallFn(name, |vs|)), P(AddRsp(8)), tg);
    var k1 := DoAdjust(cx, st, m, d, d + 1, SubRsp(8), tg);
    RepOk(cx, st, k1, d + 1);
    var k2 := DoCall(cx, name, vs, st, k1, d + 1, tg);
    match Answered(cx.env.world, name, vs, st)
    case Stop(f, t) =>
      k := k2;
      ReachTrans(cx, m, k1, k);
    case Val(v, st1) =>
      RepOk(cx, st1, k2, d + 1);
      k := DoAdjust(cx, st1, k2, d + 1, d, AddRsp(8), tg);
      KeptChain(cx, m, k1, k2);
      KeptChain(cx, m, k2, k);
  }

  /** Moving the stack pointer by one word. */
  lemma DoAdjust(cx: Cx, st: State, m: Mach, d: nat, d': nat, i: Instr, tg: Targets) returns (k: Mach)
    requires Rep(cx, st, m, d) && CodeAt(cx.c, m.pc, P(i), tg)
        && ((i == SubRsp(8) && d' == d + 1) || (i == AddRsp(8) && d == d' + 1))
    ensures Reach(cx, m, k) && Rep(cx, st, k, d') && Kept(cx, m, k) && k.pc == m.pc + 1 && k.mem == m.mem
    ensures forall r: Reg :: r != RSP ==> k.regs[r] == m.regs[r]
    ensures k.regs[RSP] == cx.rbp - cx.size - 8 * d'
  {
    hide Run, Reach, CodeAt;
    Next(cx, m, i, tg);
    k := Step(cx.env, i, m);
  }

  lemma OperandsOk(e: Expr, lens: seq<nat>)
    requires (e.AndAlso? || e.OrElse?) && ExprOk(e, lens)
    ensures ExprOk(e.a, lens) && ExprOk(e.b, lens)
  {}

  lemma CircuitMeaning(cx: Cx, e: Expr, st: State)
    requires (e.AndAlso? || e.OrElse?) && ExprOk(e, Lens(cx.fr)) && Shaped(st, Lens(cx.fr))
    ensures ExprOk(e.a, Lens(cx.fr)) && ExprOk(e.b, Lens(cx.fr))
    ensures Meaning(cx, e, st) ==
            if e.AndAlso? then Decided(cx, e.a, e.b, E, 1, 0, st) else Decided(cx, e.a, e.b, NE, 0, 1, st)
  {}

  lemma CircuitCode(fr: Frame, e: Expr, d: nat)
    requires (e.AndAlso? || e.OrElse?) && ExprOk(e, Lens(fr))
    ensures ExprOk(e.a, Lens(fr)) && ExprOk(e.b, Lens(fr))
    ensures var ca, cb, c := ExprCode(fr, e.a, d), ExprCode(fr, e.b, d), ExprCode(fr, e, d);
      && c == (if e.AndAlso? then ShortCircuit(ca, cb, E, 1, 0) else ShortCircuit(ca, cb, NE, 0, 1))
      && |c| == |ca| + |cb| + 7
  {}

  lemma AndSim(cx: Cx, e: Expr, st: State, m: Mach, d: nat, tg: Targets) returns (k: Mach)
    requires (e.AndAlso? || e.OrElse?) && CxOk(cx) && ExprOk(e, Lens(cx.fr)) && Rep(cx, st, m, d)
        && CodeAt(cx.c, m.pc, ExprCode(cx.fr, e, d), tg)
    ensures Computed(cx, Meaning(cx, e, st), m, k, |ExprCode(cx.fr, e, d)|, d, tg)
    decreases e, 1
  {
    hide Computed, CodeAt, Rep, ExprCode, Eval, Circuit, ShortCircuit, Meaning;
    hide Computed, CodeAt, Rep, ExprOk;
    assert ExprOk(e.a, Lens(cx.fr)) && ExprOk(e.b, Lens(cx.fr)) by { OperandsOk(e, Lens(cx.fr)); }
    RepOk(cx, st, m, d);
    CircuitMeaning(cx, e, st);
    CircuitCode(cx.fr, e, d);
    hide ExprCode, Eval, Decided, ShortCircuit, Meaning, Lens, Shaped;
    if e.AndAlso? {
      k := ShortCircuitSim(cx, e, e.a, e.b, E, 1, 0, st, m, d, tg);
    } else {
      k := ShortCircuitSim(cx, e, e.a, e.b, NE, 0, 1, st, m, d, tg);
    }
  }

  lemma NumSim(cx: Cx, v: I64, st: State, m: Mach, d: nat, tg: Targets) returns (k: Mach)
    requires Rep(cx, st, m, d) && CodeAt(cx.c, m.pc, P(MovImm(RAX, v)), tg)
    ensures Computed(cx, Val(v, st), m, k, 1, d, tg)
  {
    k := DoMovImm(cx, st, m, d, RAX, v, tg);
  }

  /** Expressions: the code computes the value, leaves it in RAX and keeps the stack; or it faults
      exactly as the source does. */
  lemma ExprSim(cx: Cx, e: Expr, st: State, m: Mach, d: nat, tg: Targets) returns (k: Mach)
    requires CxOk(cx) && ExprOk(e, Lens(cx.fr)) && Rep(cx, st, m, d) && CodeAt(cx.c, m.pc, ExprCode(cx.fr, e, d), tg)
    ensures Computed(cx, Meaning(cx, e, st), m, k, |ExprCode(cx.fr, e, d)|, d, tg)
    decreases e, 2
  {
    hide Computed, CodeAt, Rep, CxOk;
    match e
    case Num(v) => k := NumSim(cx, v, st, m, d, tg);
    case Load(p) => k := LoadSim(cx, p, st, m, d, tg);
    case Assign(p, a) => k := AssignSim(cx, p, a, st, m, d, tg);
    case OpAssign(op, p, a) => k := OpAssignSim(cx, op, p, a, st, m, d, tg);
    case Zero(x) => k := ZeroSim(cx, x, st, m, d, tg);
    case Comma(a, b) => k := CommaSim(cx, a, b, st, m, d, tg);
    case Neg(a) => k := UnarySim(cx, e, a, NegRax, st, m, d, tg);
    case BitNot(a) => k := UnarySim(cx, e, a, NotRax, st, m, d, tg);
    case Not(a) => k := NotSim(cx, a, st, m, d, tg);
    case Bin(op, a, b) => k := BinSim(cx, op, a, b, st, m, d, tg);
    case AndAlso(_, _) => k := AndSim(cx, e, st, m, d, tg);
    case OrElse(_, _) => k := AndSim(cx, e, st, m, d, tg);
    case Call(name, args) => k := CallSim(cx, name, args, st, m, d, tg);
  }
}
