/** Whole functions: the prologue builds the frame, the body runs in it, and the caller finds its
    own registers, stack and return address as they were. */
module Functions {
  import opened Common
  import opened Source
  import opened Machine
  import opened Lowering
  import opened Simulation
  import opened Registers
  import opened Unwinding
  import opened Statements
  import opened Bits

  /** A function: its locals' slots, the parameters among them, and its body. */
  datatype Fn = Fn(fr: Frame, size: nat, params: seq<nat>, body: Stmt)

  /** What code is proved for; of what the parser accepts, these are the functions of which
      `Defers.AcceptedIff` speaks. Jumps outside of loops are found while generating code. */
  ghost predicate Parsed(f: Fn) {
    && FrameOk(f.fr, f.size) && StmtOk(f.body, Lens(f.fr), false)
    && |f.params| <= 6 && forall i :: 0 <= i < |f.params| ==> f.params[i] < |f.fr| && f.fr[f.params[i]].len == 1
  }

  ghost predicate FnOk(f: Fn) { Parsed(f) && JumpsInside(f.body, false) }

  // ----- frames -----

  function Up8(n: nat): (r: nat)
    ensures n <= r < n + 8 && r % 8 == 0
  {
    (n + 7) / 8 * 8
  }

  function Up16(n: nat): (r: nat)
    ensures n <= r < n + 16 && r % 16 == 0
  {
    (n + 15) / 16 * 16
  }

  datatype Kind = Kind(len: nat, isArray: bool)

  /** The distance below RBP of local x: every local takes its words, in order of declaration. */
  function Offset(locals: seq<Kind>, x: nat): (r: nat)
    requires x <= |locals|
    ensures r % 8 == 0
  {
    if x == 0 then 0 else Up8(Offset(locals, x - 1) + 8 * locals[x - 1].len)
  }

  function SlotsOf(locals: seq<Kind>, offs: seq<nat>): (fr: Frame)
    requires |offs| == |locals|
    ensures |fr| == |locals| && forall x :: 0 <= x < |fr| ==> fr[x] == Slot(offs[x], locals[x].len, locals[x].isArray)
  {
    seq(|locals|, x requires 0 <= x < |locals| => Slot(offs[x], locals[x].len, locals[x].isArray))
  }

  lemma {:induction false} OffsetsGrow(locals: seq<Kind>, x: nat, y: nat)
    requires x <= y <= |locals|
    ensures Offset(locals, x) <= Offset(locals, y)
    ensures x < y ==> Offset(locals, x) <= Offset(locals, y) - 8 * locals[y - 1].len
    decreases y
  {
    if x < y { OffsetsGrow(locals, x, y - 1); }
  }

  /** Locals never overlap and lie inside the frame, which is a multiple of 16 bytes. */
  lemma LayoutOk(locals: seq<Kind>, offs: seq<nat>, size: nat)
    requires |offs| == |locals| && forall x :: 0 <= x < |locals| ==> offs[x] == Offset(locals, x + 1)
    requires forall x :: 0 <= x < |locals| ==>
      locals[x].len < 0x1000_0000 && (!locals[x].isArray ==> locals[x].len == 1)
    requires size == Up16(Offset(locals, |locals|))
    ensures FrameOk(SlotsOf(locals, offs), size)
  {
    hide Up8, Up16, Offset;
    var fr := SlotsOf(locals, offs);
    forall x | 0 <= x < |fr|
      ensures fr[x].off % 8 == 0 && 8 * fr[x].len <= fr[x].off <= size
    {
      OffsetBounds(locals, x, x);
    }
    forall x, y | 0 <= x < y < |fr|
      ensures Apart(fr[x], fr[y])
    {
      OffsetBounds(locals, x, y);
    }
  }

  lemma OffsetBounds(locals: seq<Kind>, x: nat, y: nat)
    requires x <= y < |locals|
    ensures 8 * locals[x].len <= Offset(locals, x + 1) <= Offset(locals, |locals|)
    ensures x < y ==> Offset(locals, x + 1) <= Offset(locals, y + 1) - 8 * locals[y].len
  {
    OffsetsGrow(locals, 0, x + 1);
    OffsetsGrow(locals, x + 1, y + 1);
    OffsetsGrow(locals, y + 1, |locals|);
  }

  /** Every local ends where the one before it ended plus its own words. */
  ghost predicate Packed(locals: seq<Kind>, offs: seq<nat>) {
    && |offs| == |locals|
    && forall x :: 0 <= x < |locals| ==> offs[x] == (if x == 0 then 0 else offs[x - 1]) + 8 * locals[x].len
  }

  lemma PackedOffsets(locals: seq<Kind>, offs: seq<nat>)
    requires |offs| == |locals| && forall x :: 0 <= x < |locals| ==> offs[x] == Offset(locals, x + 1)
    ensures Packed(locals, offs)
    ensures Offset(locals, |locals|) == if offs == [] then 0 else offs[|offs| - 1]
  {
    forall x | 0 <= x < |locals|
      ensures offs[x] == (if x == 0 then 0 else offs[x - 1]) + 8 * locals[x].len
    {
      OffsetStep(locals, x);
      if x > 0 { assert offs[x - 1] == Offset(locals, x); }
    }
  }

  lemma OffsetStep(locals: seq<Kind>, x: nat)
    requires x < |locals|
    ensures Offset(locals, x + 1) == Offset(locals, x) + 8 * locals[x].len
  {}

  /** Gives every local its offset, right behind the one before it, and returns the frame size: the least
      multiple of 16 that holds them all. */
  method AssignOffsets(locals: seq<Kind>, offs: array<nat>) returns (size: nat)
    requires offs.Length == |locals|
    requires forall x :: 0 <= x < |locals| ==>
      locals[x].len < 0x1000_0000 && (!locals[x].isArray ==> locals[x].len == 1)
    modifies offs
    ensures FrameOk(SlotsOf(locals, offs[..]), size)
    ensures Packed(locals, offs[..]) && size % 16 == 0
    ensures var last := if |locals| == 0 then 0 else offs[|locals| - 1]; last <= size < last + 16
  {
    hide FrameOk, Packed, SlotsOf;
    var off: nat := 0;
    for i := 0 to |locals|
      invariant off == Offset(locals, i)
      invariant forall x :: 0 <= x < i ==> offs[x] == Offset(locals, x + 1)
    {
      off := Up8(off + 8 * locals[i].len);
      offs[i] := off;
    }
    size := Up16(off);
    LayoutOk(locals, offs[..], size);
    PackedOffsets(locals, offs[..]);
  }

  // ----- code -----

  /** The loop that clears the frame; its addresses count in R11. */
  function ClearCode(): seq<Sym> {
    P(CmpFrame) + [SymJcc(AE, Rel(3))] + P(StoreR11) + P(AddR11) + [SymJmp(Rel(-5))]
  }

  /** The same loop in bytes: `cmp r11, rbp`, `jae`, `mov [r11], r10`, `add r11, 8`, `jmp`. The last
      byte is the distance from the end back to the start. */
  function ClearBytes(): seq<nat> {
    [0x49, 0x39, 0xeb] + [0x73, 0x08] + [0x4d, 0x89, 0x13] + [0x49, 0x83, 0xc3, 0x08] + [0xeb, 242]
  }

  /** Its exit jump lands on that last byte, 0xF2, and not behind the loop. */
  lemma LandsEarly()
    ensures var b, next := ClearBytes(), 5; next + b[next - 1] == |b| - 1 && b[|b| - 1] == 0xF2
  {}

  function FrameCode(size: nat): seq<Sym> {
    P(Push(RBP)) + P(MovReg(RBP, RSP))
    + (if size == 0 then [] else P(SubRsp(size)) + P(MovReg(R11, RSP)) + P(XorZero(R10)) + ClearCode())
  }

  /** Stores the first n parameters. */
  function ParamCode(fr: Frame, params: seq<nat>, n: nat): seq<Sym>
    requires n <= |params| <= 6 && forall i :: 0 <= i < |params| ==> params[i] < |fr|
  {
    if n == 0 then [] else ParamCode(fr, params, n - 1) + P(StLocal(fr[params[n - 1]].off, CallRegs()[n - 1]))
  }

  ghost function FnCode(f: Fn): seq<Sym>
    requires Parsed(f)
  {
    FrameCode(f.size) + (ParamCode(f.fr, f.params, |f.params|)
    + (StmtCode(f.fr, f.body, OUTERMOST, 0) + (P(MovImm(RAX, 0)) + (P(Leave) + P(Ret)))))
  }

  // ----- meaning -----

  function ZeroVars(fr: Frame): (v: seq<seq<I64>>)
    ensures |v| == |fr| && forall x :: 0 <= x < |fr| ==> v[x] == Zeros(fr[x].len)
  {
    seq(|fr|, x requires 0 <= x < |fr| => Zeros(fr[x].len))
  }

  /** Locals are zero, then parameters take the arguments. */
  ghost function Entry(f: Fn, args: seq<I64>, tr: Trace, n: nat): (st: State)
    requires Parsed(f) && |args| == |f.params| && n <= |args|
    ensures Shaped(st, Lens(f.fr)) && st.trace == tr
  {
    if n == 0 then State(ZeroVars(f.fr), tr)
    else Put(Entry(f, args, tr, n - 1), f.params[n - 1], 0, args[n - 1])
  }

  datatype FnResult = Ends(v: I64, trace: Trace) | Faults(f: Source.Fault, trace: Trace) | Unfinished

  ghost function RunFn(o: World, f: Fn, args: seq<I64>, tr: Trace, fuel: nat): FnResult
    requires FnOk(f) && |args| == |f.params|
  {
    match Exec(o, f.body, Entry(f, args, tr, |args|), Lens(f.fr), false, fuel)
    case Done(Returned(v), st) => Ends(v, st.trace)
    case Done(_, st) => Ends(0, st.trace)
    case Fault(f, t) => Faults(f, t)
    case Timeout => Unfinished
  }

  // ----- prologue -----

  ghost predicate Words(cx: Cx, mem0: Memory, m: Mach, i: nat) {
    && Ok(m) && m.status == Running && m.mem == ZeroWords(mem0, cx.rbp - cx.size, i) && m.regs[RBP] == cx.rbp
    && m.regs[R11] == cx.rbp - cx.size + 8 * i && m.regs[R10] == 0 && 8 * i <= cx.size
  }

  /** Registers other than R11 are left alone. */
  ghost predicate SameButR11(m: Mach, k: Mach) {
    Ok(m) && Ok(k) && k.trace == m.trace && forall r: Reg :: r != R11 ==> k.regs[r] == m.regs[r]
  }

  lemma Clears(cx: Cx, mem0: Memory, m: Mach, i: nat, tg: Targets) returns (k: Mach)
    requires CxOk(cx) && Words(cx, mem0, m, i) && CodeAt(cx.c, m.pc, ClearCode(), tg)
    ensures Reach(cx, m, k) && k.pc == m.pc + 5 && Words(cx, mem0, k, cx.size / 8) && SameButR11(m, k)
    decreases cx.size - 8 * i
  {
    hide CodeAt, Reach, Words, CxOk, Run, ZeroWords;
    WordsEnd(cx, mem0, m, i);
    var k1 := ClearTest(cx, mem0, m, i, tg);
    if 8 * i == cx.size {
      k := k1;
    } else {
      var k2 := ClearStep(cx, mem0, k1, i, m.pc, tg);
      ReachTrans(cx, m, k1, k2);
      k := Clears(cx, mem0, k2, i + 1, tg);
      ReachTrans(cx, m, k2, k);
    }
  }

  lemma WordsEnd(cx: Cx, mem0: Memory, m: Mach, i: nat)
    requires CxOk(cx) && Words(cx, mem0, m, i)
    ensures Ok(m) && 8 * i <= cx.size && (8 * i == cx.size ==> i == cx.size / 8)
        && (8 * i < cx.size ==> 8 * (i + 1) <= cx.size)
  {
    hide CxOk, ZeroWords;
    SizeAligned(cx);
  }

  lemma ClearTest(cx: Cx, mem0: Memory, m: Mach, i: nat, tg: Targets) returns (k: Mach)
    requires CxOk(cx) && Words(cx, mem0, m, i) && CodeAt(cx.c, m.pc, ClearCode(), tg)
    ensures Reach(cx, m, k) && Words(cx, mem0, k, i) && SameButR11(m, k)
    ensures k.pc == m.pc + if 8 * i == cx.size then 5 else 2
  {
    hide Run, Reach, ZeroWords, CxOk, CodeAt, Step, Words;
    ClearInstrs(cx.c, m.pc, tg);
    TestSteps(cx, mem0, m, i);
    ReachStep(cx, m);
    var k1 := Step(cx.env, CmpFrame, m);
    ReachStep(cx, k1);
    k := Step(cx.env, Jcc(AE, 3), k1);
    ReachTrans(cx, m, k1, k);
  }

  lemma TestSteps(cx: Cx, mem0: Memory, m: Mach, i: nat)
    requires CxOk(cx) && Words(cx, mem0, m, i)
    ensures Ok(m) && m.status == Running && var k1 := Step(cx.env, CmpFrame, m);
      && Ok(k1) && k1.status == Running && k1.pc == m.pc + 1
      && var k := Step(cx.env, Jcc(AE, 3), k1);
         Words(cx, mem0, k, i) && SameButR11(m, k) && k.pc == m.pc + if 8 * i == cx.size then 5 else 2
  {
    hide ZeroWords, FrameOk;
    JccStep(cx.env, AE, 3, Step(cx.env, CmpFrame, m));
  }

  lemma ClearStep(cx: Cx, mem0: Memory, m: Mach, i: nat, top: int, tg: Targets) returns (k: Mach)
    requires CxOk(cx) && Words(cx, mem0, m, i) && 8 * i < cx.size && m.pc == top + 2
        && CodeAt(cx.c, top, ClearCode(), tg)
    ensures Reach(cx, m, k) && Words(cx, mem0, k, i + 1) && SameButR11(m, k) && k.pc == top
  {
    hide Run, Reach, ZeroWords, CxOk, CodeAt, Step, Words;
    ClearInstrs(cx.c, top, tg);
    WordsEnd(cx, mem0, m, i);
    ClearSteps(cx, mem0, m, i);
    ReachStep(cx, m);
    var k1 := Step(cx.env, StoreR11, m);
    ReachStep(cx, k1);
    var k2 := Step(cx.env, AddR11, k1);
    ReachStep(cx, k2);
    k := Step(cx.env, Jmp(-5), k2);
    ReachTrans(cx, m, k1, k2);
    ReachTrans(cx, m, k2, k);
  }

  lemma ClearSteps(cx: Cx, mem0: Memory, m: Mach, i: nat)
    requires Words(cx, mem0, m, i) && 8 * (i + 1) <= cx.size
    ensures m.status == Running && var k1 := Step(cx.env, StoreR11, m);
      && Ok(k1) && k1.status == Running && k1.pc == m.pc + 1
      && var k2 := Step(cx.env, AddR11, k1);
         && Ok(k2) && k2.status == Running && k2.pc == m.pc + 2
         && var k := Step(cx.env, Jmp(-5), k2); Words(cx, mem0, k, i + 1) && SameButR11(m, k) && k.pc == m.pc - 2
  {
    hide ZeroWords, Step;
    OneMoreWord(mem0, cx.rbp - cx.size, i);
    ClearStores(cx.env, m);
    ClearAdds(cx.env, Step(cx.env, StoreR11, m));
    JmpStep(cx.env, -5, Step(cx.env, AddR11, Step(cx.env, StoreR11, m)));
  }

  lemma ClearStores(env: Env, m: Mach)
    requires Ok(m)
    ensures Step(env, StoreR11, m) == m.(mem := m.mem[m.regs[R11] := m.regs[R10]], pc := m.pc + 1)
  {}

  lemma ClearAdds(env: Env, m: Mach)
    requires Ok(m)
    ensures Step(env, AddR11, m) == m.(regs := m.regs[R11 := m.regs[R11] + 8], flags := Unset, pc := m.pc + 1)
  {}

  lemma SizeAligned(cx: Cx)
    requires CxOk(cx)
    ensures cx.size % 8 == 0
  {}

  lemma OneMoreWord(mem: Memory, a: int, i: nat)
    ensures ZeroWords(mem, a, i + 1) == ZeroWords(mem, a, i)[a + 8 * i := 0]
  {}

  lemma ClearInstrs(c: seq<Instr>, top: int, tg: Targets)
    requires CodeAt(c, top, ClearCode(), tg)
    ensures 0 <= top && top + 5 <= |c| && c[top] == CmpFrame && c[top + 1] == Jcc(AE, 3) && c[top + 2] == StoreR11
        && c[top + 3] == AddR11 && c[top + 4] == Jmp(-5)
  {
    var z := ClearCode();
    assert c[top + 0] == Fix(z[0], top, tg) && c[top + 1] == Fix(z[1], top + 1, tg)
        && c[top + 2] == Fix(z[2], top + 2, tg);
    assert c[top + 3] == Fix(z[3], top + 3, tg) && c[top + 4] == Fix(z[4], top + 4, tg);
  }

  // The frame, after the prologue.

  /** What holds at a function's first instruction: the return address is on top of the stack, which
      the call left 8 below a multiple of 16, and the arguments are in their registers. */
  ghost predicate Called(cx: Cx, f: Fn, args: seq<I64>, tr: Trace, m: Mach) {
    && CxOk(cx) && FnOk(f) && cx.fr == f.fr && cx.size == f.size && |args| == |f.params|
    && Ok(m) && m.status == Running && m.trace == tr && m.regs[RSP] == cx.rbp + 8
    && forall j {:trigger args[j]} :: 0 <= j < |args| ==> m.regs[CallRegs()[j]] == args[j]
  }

  /** The frame is set up; RBP and the return address are above it. */
  ghost predicate Framed(cx: Cx, m0: Mach, m: Mach) {
    && Ok(m0) && Ok(m) && m.status == Running && m.trace == m0.trace && m.regs[RBP] == cx.rbp
        && m.regs[RSP] == cx.rbp - cx.size
    && (forall j :: 0 <= j < 6 ==> m.regs[CallRegs()[j]] == m0.regs[CallRegs()[j]])
    && Get(m.mem, cx.rbp) == m0.regs[RBP] && forall a :: a >= cx.rbp + 8 ==> Get(m.mem, a) == Get(m0.mem, a)
  }

  ghost predicate FrameCleared(cx: Cx, m: Mach) {
    forall i :: 0 <= i && 8 * i < cx.size ==> Get(m.mem, cx.rbp - cx.size + 8 * i) == 0
  }

  lemma FrameSim(cx: Cx, f: Fn, args: seq<I64>, tr: Trace, m: Mach, tg: Targets) returns (k: Mach)
    requires Called(cx, f, args, tr, m) && CodeAt(cx.c, m.pc, FrameCode(f.size), tg)
    ensures Reach(cx, m, k) && k.pc == m.pc + |FrameCode(f.size)| && Framed(cx, m, k) && FrameCleared(cx, k)
  {
    hide FnOk, Parsed, Run, Reach, ZeroWords;
    var k2 := PushFrame(cx, m, tg, f.size);
    if f.size == 0 {
      k := k2;
    } else {
      CodeSplit(cx.c, m.pc, P(Push(RBP)) + P(MovReg(RBP, RSP)), P(SubRsp(f.size)) + P(MovReg(R11, RSP))
          + P(XorZero(R10)) + ClearCode(), tg);
      assert FrameCode(f.size) == P(Push(RBP)) + P(MovReg(RBP, RSP))
          + (P(SubRsp(f.size)) + P(MovReg(R11, RSP)) + P(XorZero(R10)) + ClearCode());
      hide CodeAt;
      k := ClearFrame(cx, m, k2, tg);
      ReachTrans(cx, m, k2, k);
    }
  }

  /** `push rbp; mov rbp, rsp`. */
  lemma PushFrame(cx: Cx, m: Mach, tg: Targets, size: nat) returns (k: Mach)
    requires Ok(m) && m.status == Running && m.regs[RSP] == cx.rbp + 8 && CodeAt(cx.c, m.pc, FrameCode(size), tg)
    ensures Reach(cx, m, k) && k.pc == m.pc + 2 && Ok(k) && k.status == Running && k.trace == m.trace
        && k.regs == m.regs[RSP := cx.rbp][RBP := cx.rbp]
    ensures k.mem == m.mem[cx.rbp := m.regs[RBP]]
  {
    hide Run, Reach;
    var rest := if size == 0 then [] else P(SubRsp(size)) + P(MovReg(R11, RSP)) + P(XorZero(R10)) + ClearCode();
    assert FrameCode(size) == P(Push(RBP)) + P(MovReg(RBP, RSP)) + rest;
    CodeSplit(cx.c, m.pc, P(Push(RBP)) + P(MovReg(RBP, RSP)), rest, tg);
    hide CodeAt;
    Next2(cx, m, Push(RBP), MovReg(RBP, RSP), tg);
    k := Step(cx.env, MovReg(RBP, RSP), Step(cx.env, Push(RBP), m));
  }

  lemma ClearFrame(cx: Cx, m0: Mach, m: Mach, tg: Targets) returns (k: Mach)
    requires CxOk(cx) && Ok(m0) && Ok(m) && m.status == Running && m.trace == m0.trace
        && m.regs == m0.regs[RSP := cx.rbp][RBP := cx.rbp]
    requires m.mem == m0.mem[cx.rbp := m0.regs[RBP]] && cx.size > 0
    requires CodeAt(cx.c, m.pc, P(SubRsp(cx.size)) + P(MovReg(R11, RSP)) + P(XorZero(R10)) + ClearCode(), tg)
    ensures Reach(cx, m, k) && k.pc == m.pc + 8 && Framed(cx, m0, k) && FrameCleared(cx, k)
  {
    hide Run, Reach, ZeroWords, CxOk, CodeAt, Step, Words, Framed, FrameCleared, ClearCode;
    var k3 := ClearStart(cx, m, tg);
    k := Clears(cx, m.mem, k3, 0, tg);
    ReachTrans(cx, m, k3, k);
    ClearedFrame(cx, m0, m, k3, k);
  }

  /** `sub rsp, size; mov r11, rsp; xor r10, r10`. */
  lemma ClearStart(cx: Cx, m: Mach, tg: Targets) returns (k: Mach)
    requires CxOk(cx) && Ok(m) && m.status == Running && m.regs[RSP] == m.regs[RBP] == cx.rbp && cx.size > 0
    requires CodeAt(cx.c, m.pc, P(SubRsp(cx.size)) + P(MovReg(R11, RSP)) + P(XorZero(R10)) + ClearCode(), tg)
    ensures Reach(cx, m, k) && k.pc == m.pc + 3 && Words(cx, m.mem, k, 0) && CodeAt(cx.c, k.pc, ClearCode(), tg)
        && k.trace == m.trace
    ensures k.regs == m.regs[RSP := cx.rbp - cx.size][R11 := cx.rbp - cx.size][R10 := 0]
  {
    hide Run, Reach, ZeroWords, CxOk, CodeAt, Step, Words, ClearCode;
    Split4(cx.c, m.pc, P(SubRsp(cx.size)), P(MovReg(R11, RSP)), P(XorZero(R10)), ClearCode(), tg);
    StartSteps(cx, m);
    Next(cx, m, SubRsp(cx.size), tg);
    var k1 := Step(cx.env, SubRsp(cx.size), m);
    Next(cx, k1, MovReg(R11, RSP), tg);
    var k2 := Step(cx.env, MovReg(R11, RSP), k1);
    Next(cx, k2, XorZero(R10), tg);
    k := Step(cx.env, XorZero(R10), k2);
    ReachTrans(cx, m, k1, k2);
    ReachTrans(cx, m, k2, k);
  }

  lemma StartSteps(cx: Cx, m: Mach)
    requires Ok(m) && m.status == Running && m.regs[RSP] == m.regs[RBP] == cx.rbp
    ensures var k1 := Step(cx.env, SubRsp(cx.size), m);
      && Ok(k1) && k1.status == Running && k1.pc == m.pc + 1
      && var k2 := Step(cx.env, MovReg(R11, RSP), k1);
         && Ok(k2) && k2.status == Running && k2.pc == m.pc + 2
         && var k := Step(cx.env, XorZero(R10), k2);
            && k.pc == m.pc + 3 && Words(cx, m.mem, k, 0) && k.trace == m.trace
            && k.regs == m.regs[RSP := cx.rbp - cx.size][R11 := cx.rbp - cx.size][R10 := 0]
  {
    NoWords(m.mem, cx.rbp - cx.size);
  }

  lemma ClearedFrame(cx: Cx, m0: Mach, m: Mach, k3: Mach, k: Mach)
    requires CxOk(cx) && Ok(m0) && Ok(m) && m.trace == m0.trace && m.regs == m0.regs[RSP := cx.rbp][RBP := cx.rbp]
    requires m.mem == m0.mem[cx.rbp := m0.regs[RBP]] && Words(cx, m.mem, k, cx.size / 8) && SameButR11(k3, k)
        && k3.trace == m.trace
    requires k3.regs == m.regs[RSP := cx.rbp - cx.size][R11 := cx.rbp - cx.size][R10 := 0]
    ensures Framed(cx, m0, k) && FrameCleared(cx, k)
  {
    hide ZeroWords;
    SizeAligned(cx);
    AllCleared(cx, m, k);
  }

  lemma NoWords(mem: Memory, a: int)
    ensures ZeroWords(mem, a, 0) == mem
  {}

  lemma AllCleared(cx: Cx, m: Mach, k: Mach)
    requires cx.size % 8 == 0 && k.mem == ZeroWords(m.mem, cx.rbp - cx.size, cx.size / 8)
    ensures FrameCleared(cx, k) && forall a :: a >= cx.rbp ==> Get(k.mem, a) == Get(m.mem, a)
  {
    hide ZeroWords, Get;
    forall i | 0 <= i && 8 * i < cx.size
      ensures Get(k.mem, cx.rbp - cx.size + 8 * i) == 0
    {
      ZeroWordsGet(m.mem, cx.rbp - cx.size, cx.size / 8, cx.rbp - cx.size + 8 * i, i);
    }
    forall a | a >= cx.rbp
      ensures Get(k.mem, a) == Get(m.mem, a)
    {
      ZeroWordsGet(m.mem, cx.rbp - cx.size, cx.size / 8, a, 0);
    }
  }

  // Parameters.

  lemma ZerosRep(cx: Cx, f: Fn, args: seq<I64>, tr: Trace, m: Mach, k: Mach)
    requires Called(cx, f, args, tr, m) && Framed(cx, m, k) && FrameCleared(cx, k)
    ensures Rep(cx, Entry(f, args, tr, 0), k, 0)
  {
    hide Parsed, CxOk, FrameCleared, Get, Addr;
    var st := Entry(f, args, tr, 0);
    forall x, i {:trigger st.vars[x][i]} | 0 <= x < |cx.fr| && 0 <= i < |st.vars[x]|
      ensures Get(k.mem, Addr(cx, x, i)) == st.vars[x][i]
    {
      ClearedWord(cx, k, x, i);
    }
  }

  lemma ClearedWord(cx: Cx, k: Mach, x: nat, i: nat)
    requires CxOk(cx) && FrameCleared(cx, k) && x < |cx.fr| && i < cx.fr[x].len
    ensures Get(k.mem, Addr(cx, x, i)) == 0
  {
    var s := cx.fr[x];
    var j := (cx.size - s.off) / 8 + i;
    assert Addr(cx, x, i) == cx.rbp - cx.size + 8 * j;
  }

  lemma DoStoreParam(cx: Cx, st: State, m: Mach, x: nat, r: Reg, v: I64, tg: Targets) returns (k: Mach)
    requires CxOk(cx) && Rep(cx, st, m, 0) && x < |cx.fr| && cx.fr[x].len == 1
        && CodeAt(cx.c, m.pc, P(StLocal(cx.fr[x].off, r)), tg) && m.regs[r] == v
    ensures Shaped(st, Lens(cx.fr)) && |st.vars| == |cx.fr| && |st.vars[x]| == 1
    ensures Reach(cx, m, k) && Rep(cx, Put(st, x, 0, v), k, 0) && Kept(cx, m, k) && k.pc == m.pc + 1 && k.regs == m.regs
  {
    hide Run, Reach;
    VarLength(cx, st, x);
    Next(cx, m, StLocal(cx.fr[x].off, r), tg);
    k := Step(cx.env, StLocal(cx.fr[x].off, r), m);
    StoreVar(cx, st, m.mem, x, 0, v);
    AddrInjective(cx, x, 0, x, 0);
  }

  lemma ParamsSim(cx: Cx, f: Fn, args: seq<I64>, tr: Trace, m: Mach, n: nat, tg: Targets) returns (k: Mach)
    requires CxOk(cx) && FnOk(f) && cx.fr == f.fr && |args| == |f.params| && n <= |args|
        && Rep(cx, Entry(f, args, tr, 0), m, 0)
    requires forall j {:trigger args[j]} :: 0 <= j < |args| ==> m.regs[CallRegs()[j]] == args[j]
    requires CodeAt(cx.c, m.pc, ParamCode(f.fr, f.params, n), tg)
    ensures Reach(cx, m, k) && Kept(cx, m, k) && Rep(cx, Entry(f, args, tr, n), k, 0)
        && k.pc == m.pc + |ParamCode(f.fr, f.params, n)| && k.regs == m.regs
    decreases n
  {
    hide CodeAt, Rep, Reach, Kept, StmtOk, FrameOk, Get;
    RepOk(cx, Entry(f, args, tr, 0), m, 0);
    if n == 0 {
      k := m;
      ReachSelf(cx, m);
      KeptSame(cx, m, m);
    } else {
      var c1, i := ParamCode(f.fr, f.params, n - 1), StLocal(f.fr[f.params[n - 1]].off, CallRegs()[n - 1]);
      CodeSplit(cx.c, m.pc, c1, P(i), tg);
      var k1 := ParamsSim(cx, f, args, tr, m, n - 1, tg);
      assert k1.regs[CallRegs()[n - 1]] == args[n - 1];
      k := DoStoreParam(cx, Entry(f, args, tr, n - 1), k1, f.params[n - 1], CallRegs()[n - 1], args[n - 1], tg);
      RepOk(cx, Entry(f, args, tr, n - 1), k1, 0);
      KeptChain(cx, m, k1, k);
    }
  }

  // The whole function.

  /** The machine is back at the caller with v in RAX and the registers that are the caller's; or it
      stopped where the source faults. */
  ghost predicate Agrees(cx: Cx, r: FnResult, m: Mach, k: Mach, tg: Targets) {
    match r
    case Ends(v, tr) =>
      && Reach(cx, m, k) && Ok(k) && k.status == Halted && k.trace == tr && k.regs[RAX] == v
      && k.regs[RSP] == m.regs[RSP] + 8 && k.regs[RBP] == m.regs[RBP] && k.pc == Get(m.mem, m.regs[RSP])
      && SameSaved(m, k) && forall a :: a >= m.regs[RSP] ==> Get(k.mem, a) == Get(m.mem, a)
    case Faults(f, tr) => Reach(cx, m, k) && Faulted(f, tr, k, tg)
    case Unfinished => true
  }

  lemma BodyReady(cx: Cx, f: Fn, args: seq<I64>, tr: Trace, m: Mach, tg: Targets) returns (k: Mach)
    requires Called(cx, f, args, tr, m) && CodeAt(cx.c, m.pc, FnCode(f), tg)
    ensures Reach(cx, m, k) && Framed(cx, m, k) && Rep(cx, Entry(f, args, tr, |args|), k, 0)
    ensures CodeAt(cx.c, k.pc, StmtCode(f.fr, f.body, OUTERMOST, 0)
        + (P(MovImm(RAX, 0)) + (P(Leave) + P(Ret))), tg)
  {
    hide CodeAt, Reach, Kept, Rep, Get, StmtCode;
    var c1, c2 := FrameCode(f.size), ParamCode(f.fr, f.params, |f.params|);
    var rest := StmtCode(f.fr, f.body, OUTERMOST, 0) + (P(MovImm(RAX, 0)) + (P(Leave) + P(Ret)));
    CodeSplit(cx.c, m.pc, c1, c2 + rest, tg);
    CodeSplit(cx.c, m.pc + |c1|, c2, rest, tg);
    var k1 := FrameSim(cx, f, args, tr, m, tg);
    ZerosRep(cx, f, args, tr, m, k1);
    k := ParamsSim(cx, f, args, tr, k1, |args|, tg);
    ReachTrans(cx, m, k1, k);
    StillFramed(cx, Entry(f, args, tr, |args|), m, k1, k);
  }

  lemma StillFramed(cx: Cx, st: State, m: Mach, k1: Mach, k: Mach)
    requires Framed(cx, m, k1) && Kept(cx, k1, k) && k.regs == k1.regs && Rep(cx, st, k, 0) && st.trace == m.trace
    ensures Framed(cx, m, k)
  {}

  /** What the caller sees after `leave; ret`. */
  lemma GoneAgrees(cx: Cx, f: Fn, args: seq<I64>, v: I64, tr: Trace, tr': Trace, m: Mach, k1: Mach, k: Mach,
      tg: Targets)
    requires Called(cx, f, args, tr, m) && Framed(cx, m, k1) && Reach(cx, m, k) && Gone(cx, v, tr', k1, k)
        && SameSaved(m, k)
    ensures cx.rbp + 8 == m.regs[RSP] && Agrees(cx, Ends(v, tr'), m, k, tg)
  {}

  /** Every run of the source that terminates is a run of the code: same value, same calls in the
      same order, same fault; the caller's stack, memory and preserved registers come back unchanged,
      and the stack pointer is a multiple of 16 at every call on the way. */
  lemma FunctionSim(cx: Cx, f: Fn, args: seq<I64>, tr: Trace, fuel: nat, m: Mach, tg: Targets) returns (k: Mach)
    requires Called(cx, f, args, tr, m) && CodeAt(cx.c, m.pc, FnCode(f), tg) && SparingCode(cx.c)
    ensures Agrees(cx, RunFn(cx.env.world, f, args, tr, fuel), m, k, tg)
  {
    hide CodeAt, Reach, Kept, Rep, Get, StmtCode, Exec, Gone, Framed, CxOk, SparingCode, SameSaved;
    var k1 := BodyReady(cx, f, args, tr, m, tg);
    var u, st := OUTERMOST, Entry(f, args, tr, |args|);
    var c1, c2 := StmtCode(f.fr, f.body, u, 0), P(MovImm(RAX, 0)) + (P(Leave) + P(Ret));
    Start(cx, st, k1, 0, c1, c2, tg);
    var k2 := StmtSim(cx, f.body, u, [], fuel, st, k1, 0, tg);
    var r := Exe(cx, f.body, st, u, fuel);
    NoStrayJump(cx.env.world, f.body, st, Lens(cx.fr), false, fuel);
    match r
    case Done(x, st1) =>
      if x.Returned? {
        assert Unwound(cx, [], [], st1) == Done(Normal, st1);
        k := k2;
        ReachTrans(cx, m, k1, k);
        ReachSpares(cx, m, k);
        GoneAgrees(cx, f, args, x.v, tr, st1.trace, m, k1, k, tg);
      } else {
        Proceed(cx, st, st1, k1, k2, 0, c1, c2, tg);
        k := FallOff(cx, st1, k2, tg);
        ReachTrans(cx, m, k1, k2);
        ReachTrans(cx, m, k2, k);
        RepOk(cx, st, k1, 0);
        GoneAfter(cx, 0, st1.trace, k1, k2, k);
        ReachSpares(cx, m, k);
        GoneAgrees(cx, f, args, 0, tr, st1.trace, m, k1, k, tg);
      }
    case Fault(f, t) =>
      k := k2;
      ReachTrans(cx, m, k1, k);
    case Timeout => k := k2;
  }

  lemma {:induction false} ParamsSparing(fr: Frame, params: seq<nat>, n: nat)
    requires n <= |params| <= 6 && forall i :: 0 <= i < |params| ==> params[i] < |fr|
    ensures Sparing(ParamCode(fr, params, n))
    decreases n
  {
    if n > 0 { ParamsSparing(fr, params, n - 1); }
  }

  /** No instruction of a function writes a register that belongs to the caller. */
  lemma FnSparing(f: Fn)
    requires Parsed(f)
    ensures Sparing(FnCode(f))
  {
    hide StmtCode, ParamCode, FrameCode, Sparing, FrameOk, StmtOk, P;
    var c1, c2, c3 := FrameCode(f.size), ParamCode(f.fr, f.params, |f.params|),
        StmtCode(f.fr, f.body, OUTERMOST, 0);
    var c4 := P(MovImm(RAX, 0)) + (P(Leave) + P(Ret));
    ParamsSparing(f.fr, f.params, |f.params|);
    StmtSparing(f.fr, f.body, OUTERMOST, 0);
    EndsSparing(f.size);
    Both(c3, c4);
    Both(c2, c3 + c4);
    Both(c1, c2 + (c3 + c4));
  }

  lemma EndsSparing(size: nat)
    ensures Sparing(FrameCode(size)) && Sparing(P(MovImm(RAX, 0)) + (P(Leave) + P(Ret)))
  {}

  /** A body that falls off its end returns 0. */
  lemma FallOff(cx: Cx, st: State, m: Mach, tg: Targets) returns (k: Mach)
    requires Ready(cx, st, m, 0, P(MovImm(RAX, 0)) + (P(Leave) + P(Ret)), tg)
    ensures Reach(cx, m, k) && Gone(cx, 0, st.trace, m, k)
  {
    hide CodeAt, Reach, Kept, Rep;
    CodeSplit(cx.c, m.pc, P(MovImm(RAX, 0)), P(Leave) + P(Ret), tg);
    ReadyOk(cx, st, m, 0, P(MovImm(RAX, 0)) + (P(Leave) + P(Ret)), tg);
    var k1 := DoMovImm(cx, st, m, 0, RAX, 0, tg);
    k := LeaveSim(cx, 0, st, k1, 0, tg);
    ReachTrans(cx, m, k1, k);
    GoneAfter(cx, 0, st.trace, m, k1, k);
  }
}
