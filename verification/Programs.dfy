/** Whole programs: the functions of a unit call each other, recursively or not, on one stack. */
module Programs {
  import opened Common
  import opened Source
  import opened Machine
  import opened Lowering
  import opened Simulation
  import opened Registers
  import opened Functions
  import opened Depths
  import opened Bits
  import opened Unwinding
  import Generator

  /** Functions in the final code, by name, and the place of the panic stub. */
  datatype Unit = Unit(names: seq<string>, fns: seq<Fn>, addrs: seq<nat>, code: seq<Instr>, pan: nat)

  ghost predicate UnitOk(u: Unit) {
    && |u.names| == |u.fns| == |u.addrs| && u.pan == |u.code| && SparingCode(u.code)
    && forall i :: 0 <= i < |u.fns| ==> FnOk(u.fns[i]) && CodeAt(u.code, u.addrs[i], FnCode(u.fns[i]), UnitTargets(u))
  }

  function UnitTargets(u: Unit): Targets { Targets(0, 0, u.pan) }

  /** The function of that name. */
  function Lookup(names: seq<string>, name: string): (r: Option<nat>)
    ensures r.Some? ==> r.value < |names| && names[r.value] == name
  {
    if names == [] then None
    else if names[|names| - 1] == name then Some(|names| - 1)
    else Lookup(names[..|names| - 1], name)
  }

  /** What functions outside of the unit return. */
  type Outside = (string, seq<int>, Trace) -> int

  // ----- the source -----

  predicate Numbers(args: seq<int>) {
    forall i :: 0 <= i < |args| ==> -0x8000_0000_0000_0000 <= args[i] < 0x8000_0000_0000_0000
  }

  function AsNumbers(args: seq<int>): (r: seq<I64>)
    requires Numbers(args)
    ensures |r| == |args| && forall i :: 0 <= i < |r| ==> r[i] == args[i]
  {
    seq(|args|, i requires 0 <= i < |args| => args[i])
  }

  /** A call, with calls nested to at most the given depth and loops of at most `fuel` rounds. A
      function outside of the unit returns and is recorded. */
  ghost function Call(u: Unit, o: Outside, depth: nat, fuel: nat, name: string, args: seq<int>, tr: Trace): Answer
    requires UnitOk(u)
    decreases depth, 0
  {
    var f := Lookup(u.names, name);
    if f.None? then
      var r := Wrap(o(name, args, tr));
      Returns(r, tr + [Event.Called(name, args, r)])
    else if depth == 0 || !Numbers(args) || |args| != |u.fns[f.value].params| then Stops(NoReturn, tr)
    else
      match RunFn(Calls(u, o, depth - 1, fuel), u.fns[f.value], AsNumbers(args), tr, fuel)
      case Ends(v, t) => Returns(v, t)
      case Faults(f, t) => Stops(f, t)
      case Unfinished => Stops(NoReturn, tr)
  }

  ghost function Calls(u: Unit, o: Outside, depth: nat, fuel: nat): World
    requires UnitOk(u)
    decreases depth, 1
  {
    (name, args, tr) => Call(u, o, depth, fuel, name, args, tr)
  }

  // ----- the machine -----

  /** Returning there ends the program. */
  const EXIT := -1

  /** What an outside function leaves behind. */
  type Litter = (string, nat, Mach) -> Junk

  datatype Prog = Prog(u: Unit, o: Outside, litter: Litter)

  ghost function OutsideEnv(p: Prog): Env {
    Env((name, args, tr) => Returns(Wrap(p.o(name, args, tr)), tr
        + [Event.Called(name, args, Wrap(p.o(name, args, tr)))]), p.litter)
  }

  /** A frame of that size can be built below rsp. */
  predicate Fits(rsp: int, size: nat) { size + 16 <= rsp <= 0x3fff_ffff_ffff_ffff }

  /** One instruction: calls inside the unit push the return address and jump, returns pop it. */
  ghost function PStep(p: Prog, i: Instr, m: Mach): (r: Mach)
    requires UnitOk(p.u) && Ok(m)
    ensures Ok(r)
  {
    var rsp := m.regs[RSP];
    if i.CallFn? && Lookup(p.u.names, i.name).Some? then
      var f := Lookup(p.u.names, i.name).value;
      if rsp % 16 != 0 then m.(status := Misaligned)
      else if i.nargs > 6 then m.(status := Undefined)
      else if !Fits(rsp, p.u.fns[f].size) then m.(status := Overflow)
      else m.(mem := m.mem[rsp - 8 := m.pc + 1], regs := m.regs[RSP := rsp - 8], pc := p.u.addrs[f])
    else if i.Ret? then
      m.(regs := m.regs[RSP := rsp + 8], pc := Get(m.mem, rsp), flags := Unset, status := if Get(m.mem, rsp) == EXIT
          then Halted else Running)
    else Step(OutsideEnv(p), i, m)
  }

  ghost function PRun(p: Prog, m: Mach, n: nat): (r: Mach)
    requires UnitOk(p.u) && Ok(m)
    ensures Ok(r)
    decreases n
  {
    if n == 0 || m.status != Running || !(0 <= m.pc < |p.u.code|) then m
    else PRun(p, PStep(p, p.u.code[m.pc], m), n - 1)
  }

  ghost predicate PReach(p: Prog, m: Mach, k: Mach)
    requires UnitOk(p.u)
  {
    Ok(m) && exists n :: PRun(p, m, n) == k
  }

  lemma {:induction false} PRunAdd(p: Prog, m: Mach, a: nat, b: nat)
    requires UnitOk(p.u) && Ok(m)
    ensures PRun(p, m, a + b) == PRun(p, PRun(p, m, a), b)
    decreases a
  {
    hide PStep, UnitOk;
    if a > 0 && m.status == Running && 0 <= m.pc < |p.u.code| {
      PRunAdd(p, PStep(p, p.u.code[m.pc], m), a - 1, b);
    } else if a > 0 {
      PStuck(p, m, a + b);
      PStuck(p, m, b);
    }
  }

  lemma PStuck(p: Prog, m: Mach, n: nat)
    requires UnitOk(p.u) && Ok(m) && (m.status != Running || !(0 <= m.pc < |p.u.code|))
    ensures PRun(p, m, n) == m
  {}

  lemma PReachTrans(p: Prog, a: Mach, b: Mach, c: Mach)
    requires UnitOk(p.u) && PReach(p, a, b) && PReach(p, b, c)
    ensures PReach(p, a, c)
  {
    hide UnitOk, PRun;
    var n :| PRun(p, a, n) == b;
    var k :| PRun(p, b, k) == c;
    PRunAdd(p, a, n, k);
  }

  lemma PReachSelf(p: Prog, m: Mach)
    requires UnitOk(p.u) && Ok(m)
    ensures PReach(p, m, m)
  {
    hide UnitOk;
    assert PRun(p, m, 0) == m;
  }

  lemma PReachStep(p: Prog, m: Mach)
    requires UnitOk(p.u) && Ok(m) && m.status == Running && 0 <= m.pc < |p.u.code|
    ensures PReach(p, m, PStep(p, p.u.code[m.pc], m))
  {
    hide PStep, UnitOk;
    assert PRun(p, m, 1) == PRun(p, PStep(p, p.u.code[m.pc], m), 0);
  }

  // ----- calls seen from outside -----

  /** The call leaves the program in state k, back at the caller. */
  ghost predicate Comes(p: Prog, v: int, t: Trace, m: Mach, k: Mach)
    requires UnitOk(p.u)
  {
    PReach(p, m, k) && k == AfterCall(Junk(k.regs, k.mem), v, t, m)
  }

  /** What a call destroys, as the program runs it. */
  ghost function JunkOf(p: Prog, depth: nat, fuel: nat, name: string, nargs: nat, m: Mach): Junk
    requires UnitOk(p.u)
  {
    if Lookup(p.u.names, name).None? then p.litter(name, nargs, m)
    else if !Ok(m) || nargs > 6 then Junk([], m.mem)
    else
      var a := Call(p.u, p.o, depth, fuel, name, CallArgs(m, nargs), m.trace);
      if a.Returns? && exists k :: Comes(p, a.v, a.trace, m, k) then
        var k :| Comes(p, a.v, a.trace, m, k);
        Junk(k.regs, k.mem)
      else Junk([], m.mem)
  }

  /** One function's view of the rest of the program. */
  ghost function Around(p: Prog, depth: nat, fuel: nat): Env
    requires UnitOk(p.u)
  {
    Env(Calls(p.u, p.o, depth, fuel), (name: string, nargs: nat, m: Mach) => JunkOf(p, depth, fuel, name, nargs, m))
  }

  /** The program stopped for that reason. */
  ghost predicate AtFault(p: Prog, f: Source.Fault, t: Trace, b: Mach) {
    && b.trace == t
    && match f
       case DivideError => b.status == DivideTrap
       case IndexPanic => b.status == Running && b.pc == p.u.pan
       case NoReturn => true
  }

  /** After `ret`, the program goes on where the return address says. */
  ghost function Back(k: Mach): Mach { k.(flags := Unset, status := if k.pc == EXIT then Halted else Running) }

  /** The program state b for the state k of one function's run. */
  ghost predicate Mirrors(p: Prog, k: Mach, b: Mach) {
    match k.status
    case Halted => b == Back(k)
    case Stopped(f) => f == NoReturn || AtFault(p, f, k.trace, b)
    case _ => b == k
  }

  /** The program gets there too, or runs out of stack where there is not room enough. */
  ghost predicate Lifted(p: Prog, m: Mach, k: Mach, room: bool)
    requires UnitOk(p.u)
  {
    exists b :: PReach(p, m, b) && ((!room && b.status == Overflow) || Mirrors(p, k, b))
  }

  // ----- the stack -----

  /** The bytes that a call takes: the return address and what the function of the unit that needs most has
      below it. */
  function Widest(fns: seq<Fn>): nat { if fns == [] then 0 else Max(8 * Room(fns[0]) + 8, Widest(fns[1..])) }

  lemma {:induction false} WidestOf(fns: seq<Fn>, i: nat)
    requires i < |fns|
    ensures 8 * Room(fns[i]) + 8 <= Widest(fns)
    decreases i
  {
    hide Room;
    if i > 0 { WidestOf(fns[1..], i - 1); }
  }

  /** The bytes for a function and calls nested to this depth, at w for each. */
  function Nested(depth: nat, w: nat): nat { if depth == 0 then w else w + Nested(depth - 1, w) }

  lemma {:induction false} NestedIs(depth: nat, w: nat)
    ensures Nested(depth, w) == (depth + 1) * w
    decreases depth
  {
    if depth > 0 {
      NestedIs(depth - 1, w);
      assert (depth + 1) * w == depth * w + w;
    }
  }

  /** Below a function's entry there is room for it and for calls nested to this depth. */
  predicate Space(u: Unit, depth: nat, rsp: int) { Nested(depth, Widest(u.fns)) <= rsp <= 0x3fff_ffff_ffff_ffff }

  /** A function of the unit, and where RSP was when it was entered. */
  datatype Activation = Activation(f: nat, rsp: int)

  /** If there is room, the machine is in that activation, at the depth of the place. */
  ghost predicate Within(p: Prog, depth: nat, room: bool, a: Activation, m: Mach)
    requires UnitOk(p.u)
  {
    room ==> a.f < |p.u.fns| && Standing(FnCode(p.u.fns[a.f]), p.u.addrs[a.f], p.u.pan, a.rsp, m)
             && Space(p.u, depth, a.rsp)
  }

  lemma WithinStep(p: Prog, depth: nat, room: bool, a: Activation, env: Env, m: Mach)
    requires UnitOk(p.u) && Within(p, depth, room, a, m) && Ok(m) && m.status == Running && 0 <= m.pc < |p.u.code|
    ensures var k := Step(env, p.u.code[m.pc], m); k.status == Running ==> Within(p, depth, room, a, k)
  {
    hide Step, Standing, FnCode, CodeAt, SparingCode, Space, FnOk;
    if room { StandingStep(env, p.u.code, p.u.fns[a.f], p.u.addrs[a.f], UnitTargets(p.u), a.rsp, m); }
  }

  lemma WithinStart(p: Prog, depth: nat, room: bool, f: nat, args: seq<I64>, m: Mach)
    requires UnitOk(p.u) && Starts(p, f, args, m) && (room ==> Space(p.u, depth, m.regs[RSP]))
    ensures Within(p, depth, room, Activation(f, m.regs[RSP]), m)
  {
    hide CodeAt, SparingCode, FnOk, Space, FnCode, Fits;
    FnSome(p.u.fns[f]);
  }

  lemma FnSome(f: Fn)
    requires FnOk(f)
    ensures |FnCode(f)| > 0
  {
    hide StmtOk, StmtCode, ParamCode;
  }

  /** At a call inside the unit the callee's frame fits, and so do the calls it makes. */
  lemma CalleeFits(p: Prog, depth: nat, a: Activation, m: Mach, name: string, nargs: nat, g: nat)
    requires UnitOk(p.u) && Within(p, depth, true, a, m) && 0 <= m.pc < |p.u.code| && depth > 0
    requires p.u.code[m.pc] == CallFn(name, nargs) && g < |p.u.fns|
    ensures Ok(m) && Fits(m.regs[RSP], p.u.fns[g].size) && Space(p.u, depth - 1, m.regs[RSP] - 8)
  {
    hide CodeAt, SparingCode, Parsed, Level, FnStart, FnCode, Widest, Room, Standing, Depth, Nested;
    var frag := FnCode(p.u.fns[a.f]);
    FnLevel(p.u.fns[a.f]);
    WidestOf(p.u.fns, a.f);
    WidestOf(p.u.fns, g);
    NotAtRet(p, a, m, name, nargs);
    DepthBound(frag, m.pc - p.u.addrs[a.f], Room(p.u.fns[a.f]));
    FrameWords(p.u.fns[g]);
    NestedMore(depth - 1, Widest(p.u.fns));
    NestedMore(depth, Widest(p.u.fns));
  }

  lemma NestedMore(depth: nat, w: nat)
    ensures Nested(depth, w) >= w && (depth > 0 ==> Nested(depth, w) == w + Nested(depth - 1, w))
  {}

  lemma NotAtRet(p: Prog, a: Activation, m: Mach, name: string, nargs: nat)
    requires UnitOk(p.u) && a.f < |p.u.fns|
    requires Standing(FnCode(p.u.fns[a.f]), p.u.addrs[a.f], p.u.pan, a.rsp, m)
    requires 0 <= m.pc < |p.u.code| && p.u.code[m.pc] == CallFn(name, nargs)
    ensures Ok(m)
    ensures var k := m.pc - p.u.addrs[a.f];
      0 <= k < |FnCode(p.u.fns[a.f])| && m.regs[RSP] == a.rsp - 8 * Depth(FnCode(p.u.fns[a.f]), k)
  {
    hide SparingCode, Parsed, FnCode;
    var k := m.pc - p.u.addrs[a.f];
    assert p.u.code[p.u.addrs[a.f] + k] == Fix(FnCode(p.u.fns[a.f])[k], p.u.addrs[a.f] + k, UnitTargets(p.u));
  }

  lemma DepthBound(frag: seq<Sym>, k: nat, top: int)
    requires k <= |frag| && exists net :: net >= 0 && Level(frag, net, top, false)
    ensures 0 <= Depth(frag, k) <= top
  {}

  lemma FrameWords(f: Fn)
    ensures f.size + 16 <= 8 * Room(f) + 8
  {}

  lemma LiftedAfter(p: Prog, a: Mach, m: Mach, k: Mach, room: bool)
    requires UnitOk(p.u) && PReach(p, a, m) && Lifted(p, m, k, room)
    ensures Lifted(p, a, k, room)
  {
    hide UnitOk, PReach, Mirrors;
    var b :| PReach(p, m, b) && ((!room && b.status == Overflow) || Mirrors(p, k, b));
    PReachTrans(p, a, m, b);
  }

  lemma LiftedSelf(p: Prog, m: Mach, room: bool)
    requires UnitOk(p.u) && Ok(m) && m.status == Running
    ensures Lifted(p, m, m, room)
  {
    hide UnitOk, PReach;
    PReachSelf(p, m);
    assert Mirrors(p, m, m);
  }

  /** Whatever one function's run does, the whole program does, with every call carried out. */
  lemma {:induction false} Lift(p: Prog, depth: nat, fuel: nat, m: Mach, n: nat, room: bool, a: Activation)
    requires UnitOk(p.u) && Ok(m) && m.status == Running && Within(p, depth, room, a, m)
    ensures Lifted(p, m, Run(Around(p, depth, fuel), p.u.code, m, n), room)
    decreases depth, 0, n, 2
  {
    hide UnitOk, PReach, Mirrors, Step, Lifted, Around, Within;
    var env := Around(p, depth, fuel);
    if n == 0 || !(0 <= m.pc < |p.u.code|) {
      LiftedSelf(p, m, room);
    } else {
      var i := p.u.code[m.pc];
      var s := Step(env, i, m);
      LiftStep(p, depth, fuel, m, room, a);
      if s.status == Running {
        Goes(p, m, s, room);
        if PReach(p, m, s) {
          WithinStep(p, depth, room, a, env, m);
          Lift(p, depth, fuel, s, n - 1, room, a);
          LiftedAfter(p, m, s, Run(env, p.u.code, s, n - 1), room);
        } else {
          Overflows(p, m, s, Run(env, p.u.code, s, n - 1), room);
        }
      } else {
        Stuck(env, p.u.code, s, n - 1);
      }
    }
  }

  /** A running state is reached itself, or the stack runs out before. */
  lemma Goes(p: Prog, m: Mach, s: Mach, room: bool)
    requires UnitOk(p.u) && Lifted(p, m, s, room) && s.status == Running
    ensures PReach(p, m, s) || (!room && exists b :: PReach(p, m, b) && b.status == Overflow)
  {
    hide UnitOk, PReach;
  }

  lemma Overflows(p: Prog, m: Mach, s: Mach, k: Mach, room: bool)
    requires UnitOk(p.u) && !room && exists b :: PReach(p, m, b) && b.status == Overflow
    ensures Lifted(p, m, k, room)
  {
    hide UnitOk, PReach;
  }

  lemma LiftStep(p: Prog, depth: nat, fuel: nat, m: Mach, room: bool, a: Activation)
    requires UnitOk(p.u) && Ok(m) && m.status == Running && 0 <= m.pc < |p.u.code| && Within(p, depth, room, a, m)
    ensures Lifted(p, m, Step(Around(p, depth, fuel), p.u.code[m.pc], m), room)
    decreases depth, 0, 0, 2
  {
    hide UnitOk, PReach, Lifted, Within;
    var i := p.u.code[m.pc];
    PReachStep(p, m);
    if i.CallFn? && Lookup(p.u.names, i.name).Some? {
      LiftCall(p, depth, fuel, m, i.name, i.nargs, room, a);
    } else {
      SameStep(p, depth, fuel, i, m);
      MirrorLifts(p, m, Step(Around(p, depth, fuel), i, m), PStep(p, i, m), room);
    }
  }

  lemma MirrorLifts(p: Prog, m: Mach, k: Mach, b: Mach, room: bool)
    requires UnitOk(p.u) && PReach(p, m, b) && ((!room && b.status == Overflow) || Mirrors(p, k, b))
    ensures Lifted(p, m, k, room)
  {
    hide UnitOk, PReach, Mirrors;
  }

  /** Everything but a call inside the unit and a return is the same instruction. */
  lemma SameStep(p: Prog, depth: nat, fuel: nat, i: Instr, m: Mach)
    requires UnitOk(p.u) && Ok(m) && m.status == Running && !(i.CallFn? && Lookup(p.u.names, i.name).Some?)
    ensures Mirrors(p, Step(Around(p, depth, fuel), i, m), PStep(p, i, m))
  {
    hide UnitOk, Lookup, AfterCall, Wrap;
    if i.CallFn? {
      OutsideCall(p, depth, fuel, i, m);
    } else if i.Ret? {
    } else {
      OtherStep(OutsideEnv(p), Around(p, depth, fuel), i, m);
    }
  }

  lemma OutsideCall(p: Prog, depth: nat, fuel: nat, i: Instr, m: Mach)
    requires UnitOk(p.u) && Ok(m) && m.status == Running && i.CallFn? && Lookup(p.u.names, i.name).None?
    ensures var k := Step(Around(p, depth, fuel), i, m); k == PStep(p, i, m) && !k.status.Halted? && !k.status.Stopped?
  {
    hide UnitOk, AfterCall, Lookup, CallArgs, JunkOf, Calls;
    if i.nargs <= 6 {
      var args := CallArgs(m, i.nargs);
      CallsAre(p, depth, fuel, i.name, args, m.trace);
      assert Call(p.u, p.o, depth, fuel, i.name, args, m.trace) == OutsideEnv(p).world(i.name, args, m.trace);
      AroundJunk(p, depth, fuel, i.name, i.nargs, m);
      AfterFields(p.litter(i.name, i.nargs, m), OutsideEnv(p).world(i.name, args, m.trace).v,
          OutsideEnv(p).world(i.name, args, m.trace).trace, m);
    }
  }

  lemma CallsAre(p: Prog, depth: nat, fuel: nat, name: string, args: seq<int>, tr: Trace)
    requires UnitOk(p.u)
    ensures Around(p, depth, fuel).world(name, args, tr) == Call(p.u, p.o, depth, fuel, name, args, tr)
  {
    hide UnitOk, Call;
  }

  lemma AroundJunk(p: Prog, depth: nat, fuel: nat, name: string, nargs: nat, m: Mach)
    requires UnitOk(p.u) && Lookup(p.u.names, name).None?
    ensures Around(p, depth, fuel).junk(name, nargs, m) == p.litter(name, nargs, m)
  {
    hide UnitOk, Calls;
  }

  lemma OtherStep(e: Env, e': Env, i: Instr, m: Mach)
    requires Ok(m) && m.status == Running && !i.CallFn? && !i.Ret?
    ensures Step(e, i, m) == Step(e', i, m) && !Step(e, i, m).status.Halted? && !Step(e, i, m).status.Stopped?
  {
    ActStatus(i, m);
  }

  lemma ActStatus(i: Instr, m: Mach)
    requires Ok(m) && m.status == Running && !i.CallFn? && !i.Ret?
    ensures !Act(i, m).status.Halted? && !Act(i, m).status.Stopped?
  {
    hide Act;
    if i.IdivRdi? {
      DivideStatus(m);
    } else if i.RepStosb? || i.Setcc? || i.Jcc? {
      GuardedStatus(i, m);
    } else if Arithmetic(i) {
      ArithmeticRegs(i, m);
    } else {
      PlainStatus(i, m);
    }
  }

  lemma DivideStatus(m: Mach)
    requires Ok(m) && m.status == Running
    ensures Act(IdivRdi, m).status == Running || Act(IdivRdi, m).status == DivideTrap
  {
    hide Wrap, TruncDiv, Unsigned;
  }

  lemma GuardedStatus(i: Instr, m: Mach)
    requires Ok(m) && m.status == Running && (i.RepStosb? || i.Setcc? || i.Jcc?)
    ensures Act(i, m).status == Running || Act(i, m).status == Undefined
  {
    hide SetReg, Unsigned, ZeroWords, Machine.Holds;
  }

  lemma PlainStatus(i: Instr, m: Mach)
    requires Ok(m) && m.status == Running
    requires !i.CallFn? && !i.Ret? && !i.IdivRdi? && !i.RepStosb? && !i.Setcc? && !i.Jcc? && !Arithmetic(i)
    ensures Act(i, m).status == Running
  {
    hide SetReg, StoreWord, Wrap, SignExtend32, Get, Unsigned;
  }

  // ----- calls inside the unit -----

  /** A function has just been entered, with these arguments, and its frame fits. */
  ghost predicate Starts(p: Prog, f: nat, args: seq<I64>, m: Mach)
    requires UnitOk(p.u)
  {
    && f < |p.u.fns| && |args| == |p.u.fns[f].params| && Ok(m) && m.status == Running && m.pc == p.u.addrs[f]
    && m.regs[RSP] % 16 == 8 && Fits(m.regs[RSP] + 8, p.u.fns[f].size)
    && forall j {:trigger args[j]} :: 0 <= j < |args| ==> m.regs[CallRegs()[j]] == args[j]
  }

  ghost function CxOf(p: Prog, depth: nat, fuel: nat, f: nat, m: Mach): Cx
    requires UnitOk(p.u) && f < |p.u.fns| && Ok(m)
  {
    Cx(Around(p, depth, fuel), p.u.code, p.u.fns[f].fr, p.u.fns[f].size, m.regs[RSP] - 8)
  }

  ghost function Outcome(p: Prog, depth: nat, fuel: nat, f: nat, args: seq<I64>, tr: Trace): FnResult
    requires UnitOk(p.u) && f < |p.u.fns| && |args| == |p.u.fns[f].params|
  {
    RunFn(Calls(p.u, p.o, depth, fuel), p.u.fns[f], args, tr, fuel)
  }

  /** One function from its first instruction on: as its source says, and carried out by the program. */
  lemma FnRuns(p: Prog, depth: nat, fuel: nat, f: nat, args: seq<I64>, m: Mach, room: bool) returns (k: Mach)
    requires UnitOk(p.u) && Starts(p, f, args, m) && (room ==> Space(p.u, depth, m.regs[RSP]))
    ensures Agrees(CxOf(p, depth, fuel, f, m), Outcome(p, depth, fuel, f, args, m.trace), m, k, UnitTargets(p.u))
    ensures !Outcome(p, depth, fuel, f, args, m.trace).Unfinished? ==> Lifted(p, m, k, room)
    decreases depth, 1, 0, 0
  {
    hide UnitOk, Lifted, RunFn, FnOk, CodeAt, SparingCode, CxOk, Around, Within, Space;
    var cx := CxOf(p, depth, fuel, f, m);
    IsCalled(p, depth, fuel, f, args, m);
    k := FunctionSim(cx, p.u.fns[f], args, m.trace, fuel, m, UnitTargets(p.u)) by { WorldAround(p, depth, fuel); }
    WorldAround(p, depth, fuel);
    if !Outcome(p, depth, fuel, f, args, m.trace).Unfinished? {
      var n := StepsOf(cx, m, k);
      WithinStart(p, depth, room, f, args, m);
      Lift(p, depth, fuel, m, n, room, Activation(f, m.regs[RSP]));
    }
  }

  lemma WorldAround(p: Prog, depth: nat, fuel: nat)
    requires UnitOk(p.u)
    ensures Around(p, depth, fuel).world == Calls(p.u, p.o, depth, fuel)
  {}

  lemma StepsOf(cx: Cx, m: Mach, k: Mach) returns (n: nat)
    requires Reach(cx, m, k)
    ensures Run(cx.env, cx.c, m, n) == k
  {
    n :| Run(cx.env, cx.c, m, n) == k;
  }

  lemma IsCalled(p: Prog, depth: nat, fuel: nat, f: nat, args: seq<I64>, m: Mach)
    requires UnitOk(p.u) && Starts(p, f, args, m)
    ensures var cx := CxOf(p, depth, fuel, f, m);
      Functions.Called(cx, p.u.fns[f], args, m.trace, m) && CodeAt(cx.c, m.pc, FnCode(p.u.fns[f]), UnitTargets(p.u))
          && SparingCode(cx.c)
  {
    hide CodeAt, SparingCode, FnCode, StmtOk;
  }

  /** The state at the first instruction of the called function. */
  ghost function Entered(p: Prog, f: nat, m: Mach): Mach
    requires Ok(m) && f < |p.u.addrs|
  {
    m.(mem := m.mem[m.regs[RSP] - 8 := m.pc + 1], regs := m.regs[RSP := m.regs[RSP] - 8], pc := p.u.addrs[f])
  }

  ghost function CallOf(p: Prog, depth: nat, fuel: nat, name: string, nargs: nat, m: Mach): Answer
    requires UnitOk(p.u) && Ok(m) && nargs <= 6
  {
    Call(p.u, p.o, depth, fuel, name, CallArgs(m, nargs), m.trace)
  }

  ghost predicate Enters(p: Prog, name: string, nargs: nat, m: Mach) {
    && Lookup(p.u.names, name).Some? && Lookup(p.u.names, name).value < |p.u.fns| && Ok(m) && m.status == Running
        && 0 <= m.pc
    && m.regs[RSP] % 16 == 0 && nargs <= 6 && Fits(m.regs[RSP], p.u.fns[Lookup(p.u.names, name).value].size)
  }

  /** A call inside the unit, as the program and as one function sees it. */
  lemma LiftCall(p: Prog, depth: nat, fuel: nat, m: Mach, name: string, nargs: nat, room: bool, act: Activation)
    requires UnitOk(p.u) && Ok(m) && m.status == Running && 0 <= m.pc < |p.u.code|
        && p.u.code[m.pc] == CallFn(name, nargs)
    requires Lookup(p.u.names, name).Some? && Within(p, depth, room, act, m)
    ensures Lifted(p, m, Step(Around(p, depth, fuel), CallFn(name, nargs), m), room)
    decreases depth, 0, 0, 1
  {
    hide UnitOk, PReach, Lifted, Step, PStep, Call, CallArgs, Mirrors, Entered, Around, Enters, Lookup, CallOf, Within,
      Fits, Space;
    var i := CallFn(name, nargs);
    PReachStep(p, m);
    RoomAtCall(p, depth, room, act, m, name, nargs);
    var s, b := Step(Around(p, depth, fuel), i, m), PStep(p, i, m);
    if !Enters(p, name, nargs, m) {
      Refused(p, depth, fuel, m, name, nargs, room);
      MirrorLifts(p, m, s, b, room);
    } else {
      Entering(p, depth, fuel, m, name, nargs);
      var a := CallOf(p, depth, fuel, name, nargs, m);
      if a.Stops? && a.f == NoReturn {
        NothingClaimed(p, s, b);
        MirrorLifts(p, m, s, b, room);
      } else {
        LiftEntered(p, depth, fuel, m, name, nargs, Lookup(p.u.names, name).value, room);
      }
    }
  }

  lemma RoomAtCall(p: Prog, depth: nat, room: bool, act: Activation, m: Mach, name: string, nargs: nat)
    requires UnitOk(p.u) && Ok(m) && 0 <= m.pc < |p.u.code| && p.u.code[m.pc] == CallFn(name, nargs)
    requires Lookup(p.u.names, name).Some? && Within(p, depth, room, act, m)
    ensures Lookup(p.u.names, name).value < |p.u.fns|
    ensures room && depth > 0 ==>
      Fits(m.regs[RSP], p.u.fns[Lookup(p.u.names, name).value].size) && Space(p.u, depth - 1, m.regs[RSP] - 8)
  {
    hide Within, Fits, Space, Lookup, CodeAt, SparingCode, FnOk;
    if room && depth > 0 { CalleeFits(p, depth, act, m, name, nargs, Lookup(p.u.names, name).value); }
  }

  /** A call that enters the called function and comes to an end. */
  lemma LiftEntered(p: Prog, depth: nat, fuel: nat, m: Mach, name: string, nargs: nat, f: nat, room: bool)
    requires UnitOk(p.u) && Enters(p, name, nargs, m) && Lookup(p.u.names, name) == Some(f) && f < |p.u.addrs|
    requires nargs <= 6 && Ok(m) && PReach(p, m, Entered(p, f, m))
    requires var a := CallOf(p, depth, fuel, name, nargs, m); !(a.Stops? && a.f == NoReturn)
    requires room && depth > 0 ==> Space(p.u, depth - 1, m.regs[RSP] - 8)
    ensures Lifted(p, m, Step(Around(p, depth, fuel), CallFn(name, nargs), m), room)
    decreases depth, 0, 0, 0
  {
    hide UnitOk, PReach, Lifted, Step, CallArgs, Starts, Outcome, Agrees, Entered, Around, Enters, Lookup, CallOf, CxOf,
      Numbers, AsNumbers, Space;
    CallRuns(p, depth, fuel, name, nargs, f, m);
    EnteredAt(p, f, m);
    var k := FnRuns(p, depth - 1, fuel, f, AsNumbers(CallArgs(m, nargs)), Entered(p, f, m), room);
    Finish(p, depth, fuel, name, nargs, f, m, k, room);
  }

  lemma EnteredAt(p: Prog, f: nat, m: Mach)
    requires Ok(m) && f < |p.u.addrs|
    ensures Ok(Entered(p, f, m)) && Entered(p, f, m).regs[RSP] == m.regs[RSP] - 8
  {}

  lemma Refused(p: Prog, depth: nat, fuel: nat, m: Mach, name: string, nargs: nat, room: bool)
    requires UnitOk(p.u) && Ok(m) && m.status == Running && 0 <= m.pc && Lookup(p.u.names, name).Some?
        && Lookup(p.u.names, name).value < |p.u.fns| && !Enters(p, name, nargs, m)
    requires room && depth > 0 ==> Fits(m.regs[RSP], p.u.fns[Lookup(p.u.names, name).value].size)
    ensures var s, b := Step(Around(p, depth, fuel), CallFn(name, nargs), m), PStep(p, CallFn(name, nargs), m);
      (!room && b.status == Overflow) || Mirrors(p, s, b)
  {
    hide AfterCall, FnOk, CodeAt, SparingCode, Lookup, Call, JunkOf;
    if nargs <= 6 { NotNested(p, depth, fuel, name, CallArgs(m, nargs), m.trace); }
  }

  /** At depth 0 nothing is claimed of a call inside the unit. */
  lemma NotNested(p: Prog, depth: nat, fuel: nat, name: string, args: seq<int>, tr: Trace)
    requires UnitOk(p.u) && Lookup(p.u.names, name).Some?
    ensures Around(p, depth, fuel).world(name, args, tr) == Call(p.u, p.o, depth, fuel, name, args, tr)
    ensures depth == 0 ==> Call(p.u, p.o, depth, fuel, name, args, tr) == Stops(NoReturn, tr)
  {
    hide UnitOk, Lookup, RunFn;
    CallsAre(p, depth, fuel, name, args, tr);
  }

  lemma Entering(p: Prog, depth: nat, fuel: nat, m: Mach, name: string, nargs: nat)
    requires UnitOk(p.u) && Enters(p, name, nargs, m)
    ensures Lookup(p.u.names, name).value < |p.u.addrs| && nargs <= 6
    ensures PStep(p, CallFn(name, nargs), m) == Entered(p, Lookup(p.u.names, name).value, m)
    ensures Step(Around(p, depth, fuel), CallFn(name, nargs), m) ==
            match CallOf(p, depth, fuel, name, nargs, m)
            case Returns(v, t) => AfterCall(JunkOf(p, depth, fuel, name, nargs, m), v, t, m)
            case Stops(f, t) => m.(status := Stopped(f), trace := t)
  {
    hide AfterCall, JunkOf, FnOk, CodeAt, SparingCode, Lookup, Call, CallArgs;
  }

  lemma NothingClaimed(p: Prog, s: Mach, b: Mach)
    requires s.status == Stopped(NoReturn)
    ensures Mirrors(p, s, b)
  {}

  /** The called function starts, and its outcome is the call's. */
  lemma CallRuns(p: Prog, depth: nat, fuel: nat, name: string, nargs: nat, f: nat, m: Mach)
    requires UnitOk(p.u) && Enters(p, name, nargs, m) && Lookup(p.u.names, name) == Some(f)
    requires var a := CallOf(p, depth, fuel, name, nargs, m); !(a.Stops? && a.f == NoReturn)
    ensures depth > 0 && f < |p.u.fns| && f < |p.u.addrs| && Entered(p, f, m).trace == m.trace
        && Numbers(CallArgs(m, nargs)) && nargs == |p.u.fns[f].params|
    ensures var args := AsNumbers(CallArgs(m, nargs));
      && Starts(p, f, args, Entered(p, f, m))
      && var r := Outcome(p, depth - 1, fuel, f, args, m.trace);
         && !r.Unfinished? && (r.Faults? ==> r.f != NoReturn)
         && CallOf(p, depth, fuel, name, nargs, m) == (if r.Ends? then Returns(r.v, r.trace) else Stops(r.f, r.trace))
  {
    hide FnOk, CodeAt, SparingCode, Lookup, RunFn, Calls, UnitOk, CallArgs, Starts, Numbers, Entered;
    UnitLengths(p.u);
    StartsAt(p, name, nargs, f, m);
  }

  lemma UnitLengths(u: Unit)
    requires UnitOk(u)
    ensures |u.names| == |u.fns| == |u.addrs|
  {}

  lemma StartsAt(p: Prog, name: string, nargs: nat, f: nat, m: Mach)
    requires UnitOk(p.u) && Enters(p, name, nargs, m) && Lookup(p.u.names, name) == Some(f) && f < |p.u.addrs|
    ensures Entered(p, f, m).trace == m.trace
    ensures Numbers(CallArgs(m, nargs)) && nargs == |p.u.fns[f].params|
        ==> Starts(p, f, AsNumbers(CallArgs(m, nargs)), Entered(p, f, m))
  {
    hide UnitOk, Lookup, CallArgs, CallRegs;
    UnitLengths(p.u);
    if Numbers(CallArgs(m, nargs)) {
      var args := AsNumbers(CallArgs(m, nargs));
      forall j {:trigger args[j]} | 0 <= j < nargs
        ensures Entered(p, f, m).regs[CallRegs()[j]] == args[j]
      {
        ArgumentStays(m, j);
      }
    }
  }

  lemma ArgumentStays(m: Mach, j: nat)
    requires Ok(m) && j < 6
    ensures m.regs[RSP := m.regs[RSP] - 8][CallRegs()[j]] == m.regs[CallRegs()[j]]
  {}

  /** The call as a whole: the called function came back to the caller, or stopped. */
  lemma Finish(p: Prog, depth: nat, fuel: nat, name: string, nargs: nat, f: nat, m: Mach, k: Mach,
      room: bool)
    requires UnitOk(p.u) && Enters(p, name, nargs, m) && Lookup(p.u.names, name) == Some(f) && f < |p.u.addrs|
        && depth > 0
    requires nargs <= 6 && f < |p.u.fns| && Ok(m) && Numbers(CallArgs(m, nargs)) && nargs == |p.u.fns[f].params|
    requires var r := Outcome(p, depth - 1, fuel, f, AsNumbers(CallArgs(m, nargs)), m.trace);
      && !r.Unfinished? && (r.Faults? ==> r.f != NoReturn)
      && CallOf(p, depth, fuel, name, nargs, m) == (if r.Ends? then Returns(r.v, r.trace) else Stops(r.f, r.trace))
      && Agrees(CxOf(p, depth - 1, fuel, f, Entered(p, f, m)), r, Entered(p, f, m), k, UnitTargets(p.u))
    requires PReach(p, m, Entered(p, f, m)) && Lifted(p, Entered(p, f, m), k, room)
    ensures Lifted(p, m, Step(Around(p, depth, fuel), CallFn(name, nargs), m), room)
  {
    hide UnitOk, PReach, Step, Mirrors, Outcome, Agrees, Entered, Around, Enters, CallOf, JunkOf, CallArgs, AfterCall;
    Entering(p, depth, fuel, m, name, nargs);
    EnteredFrom(p, name, nargs, f, m);
    var e := Entered(p, f, m);
    var r := Outcome(p, depth - 1, fuel, f, AsNumbers(CallArgs(m, nargs)), m.trace);
    var s := Step(Around(p, depth, fuel), CallFn(name, nargs), m);
    var b :| PReach(p, e, b) && ((!room && b.status == Overflow) || Mirrors(p, k, b));
    PReachTrans(p, m, e, b);
    if !room && b.status == Overflow {
      MirrorLifts(p, m, s, b, room);
    } else if r.Ends? {
      Returned(p, CxOf(p, depth - 1, fuel, f, e), r.v, r.trace, f, m, k, b);
      JunkFound(p, depth, fuel, name, nargs, m, b);
      SelfMirror(p, s);
      MirrorLifts(p, m, s, s, room);
    } else {
      StoppedInside(p, CxOf(p, depth - 1, fuel, f, e), r, e, k, s, b);
      MirrorLifts(p, m, s, b, room);
    }
  }

  lemma EnteredFrom(p: Prog, name: string, nargs: nat, f: nat, m: Mach)
    requires Enters(p, name, nargs, m)
    ensures Ok(m) && m.status == Running && 0 <= m.pc
  {}

  /** Back at the caller: nothing of the caller's has changed. */
  lemma Returned(p: Prog, cx: Cx, v: I64, t: Trace, f: nat, m: Mach, k: Mach, b: Mach)
    requires UnitOk(p.u) && f < |p.u.addrs| && Ok(m) && m.status == Running && 0 <= m.pc && PReach(p, m, b)
        && Mirrors(p, k, b)
    requires Agrees(cx, Ends(v, t), Entered(p, f, m), k, UnitTargets(p.u))
    ensures Comes(p, v, t, m, b)
  {
    hide UnitOk, PReach, Reach, Run, AfterCall, CallerSaved;
    var e := Entered(p, f, m);
    SameRegs(v, t, m, e, b);
    SameMemory(v, t, m, e, b);
    AfterFields(Junk(b.regs, b.mem), v, t, m);
  }

  lemma AfterFields(j: Junk, v: int, t: Trace, m: Mach)
    requires Ok(m)
    ensures var k := AfterCall(j, v, t, m); k == Mach(m.pc + 1, k.regs, k.mem, Unset, t, m.status)
  {}

  lemma SameRegs(v: I64, t: Trace, m: Mach, e: Mach, b: Mach)
    requires Ok(m) && Ok(b) && SameSaved(e, b) && e.regs == m.regs[RSP := m.regs[RSP] - 8]
    requires b.regs[RAX] == v && b.regs[RSP] == m.regs[RSP] && b.regs[RBP] == m.regs[RBP]
    ensures AfterCall(Junk(b.regs, b.mem), v, t, m).regs == b.regs
  {
    hide AfterCall;
    var a := AfterCall(Junk(b.regs, b.mem), v, t, m);
    assert Wrap(v) == v;
    forall i: Reg ensures a.regs[i] == b.regs[i] {
      AfterReg(Junk(b.regs, b.mem), v, t, m, i);
      if Preserved(i) { assert b.regs[i] == e.regs[i] == m.regs[i]; }
    }
  }

  lemma EqualMaps(p: imap<int, int>, q: imap<int, int>)
    requires forall x: int :: x in p && x in q && p[x] == q[x]
    ensures p == q
  {
    assert forall x: int :: x in p <==> x in q;
    assert forall x: int :: x in p ==> p[x] == q[x];
  }

  lemma SameMemory(v: I64, t: Trace, m: Mach, e: Mach, b: Mach)
    requires Ok(m) && e.mem == m.mem[m.regs[RSP] - 8 := m.pc + 1] && forall a :: a >= m.regs[RSP] - 8 ==>
      Get(b.mem, a) == Get(e.mem, a)
    ensures AfterCall(Junk(b.regs, b.mem), v, t, m).mem == b.mem
  {
    hide AfterCall;
    var a := AfterCall(Junk(b.regs, b.mem), v, t, m);
    forall x: int ensures x in a.mem && x in b.mem && a.mem[x] == b.mem[x] {
      AfterWord(Junk(b.regs, b.mem), v, t, m, x);
      if x >= m.regs[RSP] { assert Get(b.mem, x) == Get(e.mem, x); }
    }
    EqualMaps(a.mem, b.mem);
  }

  /** So what one function sees after the call is the program's own state. */
  lemma JunkFound(p: Prog, depth: nat, fuel: nat, name: string, nargs: nat, m: Mach, b: Mach)
    requires UnitOk(p.u) && Lookup(p.u.names, name).Some? && Ok(m) && m.status == Running && nargs <= 6
    requires var a := CallOf(p, depth, fuel, name, nargs, m); a.Returns? && Comes(p, a.v, a.trace, m, b)
    ensures var a := CallOf(p, depth, fuel, name, nargs, m);
      var s := AfterCall(JunkOf(p, depth, fuel, name, nargs, m), a.v, a.trace, m);
        PReach(p, m, s) && s.status == Running
  {
    hide UnitOk, PReach, AfterCall, Lookup, Call;
    var a := CallOf(p, depth, fuel, name, nargs, m);
    AfterFields(JunkOf(p, depth, fuel, name, nargs, m), a.v, a.trace, m);
  }

  lemma SelfMirror(p: Prog, s: Mach)
    requires s.status == Running
    ensures Mirrors(p, s, s)
  {}

  lemma StoppedInside(p: Prog, cx: Cx, r: FnResult, e: Mach, k: Mach, s: Mach, b: Mach)
    requires r.Faults? && r.f != NoReturn && Agrees(cx, r, e, k, UnitTargets(p.u)) && Mirrors(p, k, b)
    requires s.status == Stopped(r.f) && s.trace == r.trace
    ensures Mirrors(p, s, b)
  {
    hide Reach;
  }

  // ----- the whole program -----

  /** Whatever a function of the unit does, with all the calls it makes, the program does: it returns
      the same value after the same calls to the outside, or stops at the same fault. It runs out of stack
      only where there is not room for calls nested to that depth. */
  lemma ProgramSim(p: Prog, depth: nat, fuel: nat, f: nat, args: seq<I64>, m: Mach) returns (b: Mach)
    requires UnitOk(p.u) && Starts(p, f, args, m) && Get(m.mem, m.regs[RSP]) == EXIT
    ensures PReach(p, m, b)
    ensures Ended(p, Outcome(p, depth, fuel, f, args, m.trace), m, b)
      || (b.status == Overflow && m.regs[RSP] < Nested(depth, Widest(p.u.fns)))
  {
    hide UnitOk, PReach, Starts, Outcome, Agrees, Mirrors;
    StartsOk(p, f, args, m);
    var room := Space(p.u, depth, m.regs[RSP]);
    var k := FnRuns(p, depth, fuel, f, args, m, room);
    var r := Outcome(p, depth, fuel, f, args, m.trace);
    if r.Unfinished? {
      b := m;
      PReachSelf(p, m);
    } else {
      b :| PReach(p, m, b) && ((!room && b.status == Overflow) || Mirrors(p, k, b));
      if Mirrors(p, k, b) { Finished(p, CxOf(p, depth, fuel, f, m), r, m, k, b); }
    }
  }

  ghost predicate Ended(p: Prog, r: FnResult, m: Mach, b: Mach)
    requires Ok(m)
  {
    match r
    case Ends(v, t) =>
      && b.status == Halted && b.trace == t && SameSaved(m, b) && b.regs[RAX] == v
      && b.regs[RSP] == m.regs[RSP] + 8 && b.regs[RBP] == m.regs[RBP] && forall a :: a >= m.regs[RSP] ==>
        Get(b.mem, a) == Get(m.mem, a)
    case Faults(f, t) => AtFault(p, f, t, b) || f == NoReturn
    case Unfinished => true
  }

  lemma StartsOk(p: Prog, f: nat, args: seq<I64>, m: Mach)
    requires UnitOk(p.u) && Starts(p, f, args, m)
    ensures f < |p.u.fns| && |args| == |p.u.fns[f].params| && Ok(m) && m.regs[RSP] <= 0x3fff_ffff_ffff_ffff
  {}

  lemma Finished(p: Prog, cx: Cx, r: FnResult, m: Mach, k: Mach, b: Mach)
    requires Ok(m) && Agrees(cx, r, m, k, UnitTargets(p.u)) && Mirrors(p, k, b) && Get(m.mem, m.regs[RSP]) == EXIT
    ensures Ended(p, r, m, b)
  {
    hide Reach;
  }

  /** The generator's output is such a unit. */
  method Compile(names: seq<string>, fs: seq<Fn>) returns (ok: bool, u: Unit)
    requires |names| == |fs| && forall i :: 0 <= i < |fs| ==> Parsed(fs[i])
    ensures ok == forall i :: 0 <= i < |fs| ==> JumpsInside(fs[i].body, false)
    ensures ok ==> u.names == names && u.fns == fs && UnitOk(u)
  {
    var code, addrs, pan;
    ok, code, addrs, pan := Generator.GenUnit(fs);
    u := Unit(names, fs, addrs, code, pan);
  }
}
