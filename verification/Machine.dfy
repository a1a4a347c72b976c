/** The x86-64 instructions that `src/codegen.c` emits for the scalar subset. Addresses count bytes;
    memory is kept by aligned 8-byte words, and code by instructions. */
module Machine {
  import opened Common
  import opened Source
  import opened Bits

  const RAX := 0
  const RCX := 1
  const RDX := 2
  const RBX := 3
  const RSP := 4
  const RBP := 5
  const RSI := 6
  const RDI := 7
  const R8 := 8
  const R9 := 9
  const R10 := 10
  const R11 := 11

  type Reg = r: int | 0 <= r < 16

  /** The argument registers, in order (System V AMD64 ABI section 3.2.3). */
  function CallRegs(): (s: seq<Reg>)
    ensures |s| == 6
  {
    [RDI, RSI, RDX, RCX, R8, R9]
  }

  datatype Cc = E | NE | L | LE | AE

  datatype Instr =
    | XorZero(r: Reg)              // xor r32, r32
    | MovU32(r: Reg, imm: nat)     // mov r32, imm32
    | MovS32(r: Reg, imm: nat)     // mov r64, sign-extended imm32
    | MovAbs(r: Reg, imm: nat)     // movabs r64, imm64
    | MovReg(dst: Reg, src: Reg)
    | Push(r: Reg)
    | Pop(r: Reg)
    | LeaLocal(r: Reg, off: int)   // lea r, [rbp - off]
    | LdLocal(r: Reg, off: int)
    | StLocal(off: int, r: Reg)
    | LoadRax                      // mov rax, [rax]
    | StoreRdi                     // mov [rdi], rax
    | RepStosb
    | AddRdi | SubRdi | AndRdi | OrRdi | XorRdi | ImulRdi | ImulRcx   // rax op= register
    | Cqo | IdivRdi
    | ShlCl | SarCl
    | NegRax | NotRax
    | CmpRdi                       // cmp rax, rdi
    | CmpImm(imm: nat)             // cmp rax, imm32
    | TestRax
    | Setcc(cc: Cc)                // setcc al; movzx rax, al
    | Jmp(rel: int)
    | Jcc(cc: Cc, rel: int)
    | SubRsp(n: nat)
    | AddRsp(n: nat)
    | CallFn(name: string, nargs: nat)
    | CmpFrame                     // cmp r11, rbp
    | StoreR11                     // mov [r11], r10
    | AddR11                       // add r11, 8
    | Leave
    | Ret

  datatype Flags = Unset | Compared(a: int, b: int)

  /** Stopped: a call ended in a fault. Overflow: a call would have left the stack. */
  datatype Status = Running | DivideTrap | Misaligned | Undefined | Halted | Stopped(f: Source.Fault) | Overflow

  /** Every address holds a word. */
  type Memory = mem: imap<int, int> | forall a: int :: a in mem ghost witness imap a: int :: 0

  datatype Mach = Mach(pc: int, regs: seq<int>, mem: Memory, flags: Flags, trace: Trace, status: Status)

  predicate Ok(m: Mach) { |m.regs| == 16 }

  function Get(mem: Memory, a: int): int { mem[a] }

  /** What a called function leaves in the registers it may destroy and in the stack below it. */
  datatype Junk = Junk(regs: seq<int>, mem: Memory)

  /** The world outside: what a call does, and what it destroys. */
  datatype Env = Env(world: World, junk: (string, nat, Mach) -> Junk)

  function SignExtend32(imm: nat): int {
    var x := imm % 0x1_0000_0000;
    if x >= 0x8000_0000 then x - 0x1_0000_0000 else x
  }

  predicate Holds(cc: Cc, a: int, b: int) {
    match cc
    case E => a == b
    case NE => a != b
    case L => a < b
    case LE => a <= b
    case AE => Unsigned(a) >= Unsigned(b)
  }

  function SetReg(m: Mach, r: Reg, v: int): (k: Mach)
    requires Ok(m)
    ensures k.regs == m.regs[r := v] && k.pc == m.pc + 1 && k.mem == m.mem && k.trace == m.trace && k.status == m.status
  {
    m.(regs := m.regs[r := v], pc := m.pc + 1)
  }

  /** An arithmetic result in RAX; the flags are not relied on afterwards. */
  function SetAlu(m: Mach, v: int): (k: Mach)
    requires Ok(m)
    ensures k.regs == m.regs[RAX := Wrap(v)] && k.pc == m.pc + 1 && k.mem == m.mem && k.trace == m.trace
    ensures k.status == m.status
  {
    SetReg(m, RAX, Wrap(v)).(flags := Unset)
  }

  function StoreWord(m: Mach, a: int, v: int): (k: Mach)
    ensures k.status == m.status && k.regs == m.regs
  {
    m.(mem := m.mem[a := v], pc := m.pc + 1)
  }

  function ZeroWords(mem: Memory, a: int, n: nat): Memory
    decreases n
  {
    if n == 0 then mem else ZeroWords(mem, a, n - 1)[a + 8 * (n - 1) := 0]
  }

  /** The first n arguments of a call. */
  function CallArgs(m: Mach, n: nat): (r: seq<int>)
    requires Ok(m) && n <= 6
    ensures |r| == n && forall i :: 0 <= i < n ==> r[i] == m.regs[CallRegs()[i]]
  {
    seq(n, i requires 0 <= i < n => m.regs[CallRegs()[i]])
  }

  /** Registers that a call may destroy (System V AMD64 ABI section 3.2.1); the rest are kept. */
  predicate CallerSaved(r: int) { RAX <= r <= RDX || RSI <= r <= R11 }

  /** After a call: RAX holds the result, caller-saved registers and the stack below RSP are gone. */
  ghost function AfterCall(j: Junk, v: int, t: Trace, m: Mach): (k: Mach)
    requires Ok(m)
    ensures Ok(k)
  {
    var rsp := m.regs[RSP];
    var regs := seq(16, i requires 0 <= i < 16 =>
      if i == RAX then Wrap(v) else if CallerSaved(i) && i < |j.regs| then j.regs[i] else m.regs[i]);
    var mem := imap a: int :: if a < rsp then j.mem[a] else m.mem[a];
    m.(regs := regs, mem := mem, flags := Unset, pc := m.pc + 1, trace := t)
  }

  lemma AfterReg(j: Junk, v: int, t: Trace, m: Mach, r: Reg)
    requires Ok(m)
    ensures AfterCall(j, v, t, m).regs[r] ==
            if r == RAX then Wrap(v) else if CallerSaved(r) && r < |j.regs| then j.regs[r] else m.regs[r]
  {}

  lemma AfterWord(j: Junk, v: int, t: Trace, m: Mach, a: int)
    requires Ok(m)
    ensures AfterCall(j, v, t, m).mem[a] == if a < m.regs[RSP] then j.mem[a] else m.mem[a]
  {}

  /** A call on an aligned stack. */
  ghost function Invoke(env: Env, name: string, nargs: nat, m: Mach): (r: Mach)
    requires Ok(m)
    ensures Ok(r)
  {
    if m.regs[RSP] % 16 != 0 then m.(status := Misaligned)
    else if nargs > 6 then m.(status := Undefined)
    else
      match env.world(name, CallArgs(m, nargs), m.trace)
      case Returns(v, t) => AfterCall(env.junk(name, nargs, m), v, t, m)
      case Stops(f, t) => m.(status := Stopped(f), trace := t)
  }

  /** One instruction. */
  ghost function Step(env: Env, i: Instr, m: Mach): (r: Mach)
    requires Ok(m)
    ensures Ok(r)
  {
    if i.CallFn? then Invoke(env, i.name, i.nargs, m) else Act(i, m)
  }

  /** One instruction other than a call. */
  function Act(i: Instr, m: Mach): (r: Mach)
    requires Ok(m) && !i.CallFn?
    ensures Ok(r)
  {
    var rax, rdi, rsp, rbp := m.regs[RAX], m.regs[RDI], m.regs[RSP], m.regs[RBP];
    match i
    case XorZero(r) => SetReg(m, r, 0).(flags := Unset)
    case MovU32(r, imm) => SetReg(m, r, imm % 0x1_0000_0000)
    case MovS32(r, imm) => SetReg(m, r, SignExtend32(imm))
    case MovAbs(r, imm) => SetReg(m, r, Wrap(imm))
    case MovReg(dst, src) => SetReg(m, dst, m.regs[src])
    case Push(r) => StoreWord(m.(regs := m.regs[RSP := rsp - 8]), rsp - 8, m.regs[r])
    case Pop(r) => SetReg(m.(regs := m.regs[RSP := rsp + 8]), r, Get(m.mem, rsp))
    case LeaLocal(r, off) => SetReg(m, r, rbp - off)
    case LdLocal(r, off) => SetReg(m, r, Get(m.mem, rbp - off))
    case StLocal(off, r) => StoreWord(m, rbp - off, m.regs[r])
    case LoadRax => SetReg(m, RAX, Get(m.mem, rax))
    case StoreRdi => StoreWord(m, rdi, rax)
    case RepStosb =>
      // Only whole zero words are modelled.
      var n := m.regs[RCX];
      if rax != 0 || n < 0 || n % 8 != 0 then m.(status := Undefined)
      else m.(mem := ZeroWords(m.mem, rdi, n / 8), regs := m.regs[RDI := rdi + n][RCX := 0], pc := m.pc + 1)
    case AddRdi => SetAlu(m, rax + rdi)
    case SubRdi => SetAlu(m, rax - rdi)
    case AndRdi => SetAlu(m, And(Unsigned(rax), Unsigned(rdi)))
    case OrRdi => SetAlu(m, Or(Unsigned(rax), Unsigned(rdi)))
    case XorRdi => SetAlu(m, Xor(Unsigned(rax), Unsigned(rdi)))
    case ImulRdi => SetAlu(m, rax * rdi)
    case ImulRcx => SetAlu(m, rax * m.regs[RCX])
    case Cqo => SetReg(m, RDX, if rax < 0 then -1 else 0)
    case IdivRdi =>
      // RDX:RAX by RDI; the quotient must fit.
      var n := m.regs[RDX] * 0x1_0000_0000_0000_0000 + Unsigned(rax);
      if rdi == 0 then m.(status := DivideTrap)
      else
        var q := TruncDiv(n, rdi);
        if q != Wrap(q) then m.(status := DivideTrap)
        else m.(regs := m.regs[RAX := q][RDX := n - q * rdi], flags := Unset, pc := m.pc + 1)
    case ShlCl => SetAlu(m, rax * Pow2(m.regs[RCX] % 64))
    case SarCl => SetAlu(m, rax / Pow2(m.regs[RCX] % 64))
    case NegRax => SetAlu(m, -rax)
    case NotRax => SetReg(m, RAX, Wrap(-rax - 1))
    case CmpRdi => m.(flags := Compared(rax, rdi), pc := m.pc + 1)
    case CmpImm(imm) => m.(flags := Compared(rax, imm), pc := m.pc + 1)
    case TestRax => m.(flags := Compared(rax, 0), pc := m.pc + 1)
    case Setcc(cc) =>
      if m.flags.Unset? then m.(status := Undefined)
      else SetReg(m, RAX, if Holds(cc, m.flags.a, m.flags.b) then 1 else 0)
    case Jmp(rel) => m.(pc := m.pc + 1 + rel)
    case Jcc(cc, rel) =>
      if m.flags.Unset? then m.(status := Undefined)
      else m.(pc := m.pc + 1 + (if Holds(cc, m.flags.a, m.flags.b) then rel else 0))
    case SubRsp(n) => m.(regs := m.regs[RSP := rsp - n], flags := Unset, pc := m.pc + 1)
    case AddRsp(n) => m.(regs := m.regs[RSP := rsp + n], flags := Unset, pc := m.pc + 1)
    case CmpFrame => m.(flags := Compared(m.regs[R11], rbp), pc := m.pc + 1)
    case StoreR11 => StoreWord(m, m.regs[R11], m.regs[R10])
    case AddR11 => SetReg(m, R11, m.regs[R11] + 8).(flags := Unset)
    case Leave => m.(regs := m.regs[RSP := rbp + 8][RBP := Get(m.mem, rbp)], pc := m.pc + 1)
    case Ret => m.(regs := m.regs[RSP := rsp + 8], pc := Get(m.mem, rsp), status := Halted)
  }

  /** At most n instructions of the program c; a machine that stopped stays as it is. */
  ghost function Run(env: Env, c: seq<Instr>, m: Mach, n: nat): (r: Mach)
    requires Ok(m)
    ensures Ok(r)
    decreases n
  {
    if n == 0 || m.status != Running || !(0 <= m.pc < |c|) then m
    else Run(env, c, Step(env, c[m.pc], m), n - 1)
  }

  lemma {:induction false} RunAdd(env: Env, c: seq<Instr>, m: Mach, a: nat, b: nat)
    requires Ok(m)
    ensures Run(env, c, m, a + b) == Run(env, c, Run(env, c, m, a), b)
    decreases a
  {
    hide Step;
    if a > 0 && m.status == Running && 0 <= m.pc < |c| {
      RunAdd(env, c, Step(env, c[m.pc], m), a - 1, b);
    } else if a > 0 {
      Stuck(env, c, m, a + b);
      Stuck(env, c, m, b);
    }
  }

  lemma {:induction false} Stuck(env: Env, c: seq<Instr>, m: Mach, n: nat)
    requires Ok(m) && (m.status != Running || !(0 <= m.pc < |c|))
    ensures Run(env, c, m, n) == m
  {}
}
