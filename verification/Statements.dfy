/** Forward simulation for statements: however a statement is left, its code goes to the same place
    with the same locals, having run exactly the defers that were due. */
module Statements {
  import opened Common
  import opened Source
  import opened Machine
  import opened Lowering
  import opened Simulation
  import opened Unwinding
  import opened Bits

  function Exe(cx: Cx, s: Stmt, st: State, u: Unwind, fuel: nat): (r: Outcome)
    requires StmtOk(s, Lens(cx.fr), u.inDefer) && Shaped(st, Lens(cx.fr))
    ensures r.Done? ==> Shaped(r.st, Lens(cx.fr))
  {
    Exec(cx.env.world, s, st, Lens(cx.fr), u.inDefer, fuel)
  }

  function ExeBlock(cx: Cx, b: seq<Stmt>, st: State, u: Unwind, fuel: nat): BlockRun
    requires BlockOk(b, Lens(cx.fr), u.inDefer) && Shaped(st, Lens(cx.fr))
  {
    ExecBlock(cx.env.world, b, st, Lens(cx.fr), u.inDefer, fuel)
  }

  function ExePending(cx: Cx, l: seq<Stmt>, st: State, fuel: nat): (r: Outcome)
    requires PendingOk(l, Lens(cx.fr)) && Shaped(st, Lens(cx.fr))
    ensures r.Done? ==> Shaped(r.st, Lens(cx.fr))
  {
    RunPending(cx.env.world, l, st, Lens(cx.fr), fuel)
  }

  function ExeLoop(cx: Cx, c: Option<Expr>, step: Option<Expr>, b: Stmt, st: State, u: Unwind, fuel: nat): (r: Outcome)
    requires OptOk(c, Lens(cx.fr)) && OptOk(step, Lens(cx.fr)) && StmtOk(b, Lens(cx.fr), u.inDefer)
        && Shaped(st, Lens(cx.fr))
    ensures r.Done? ==> Shaped(r.st, Lens(cx.fr))
  {
    Loop(cx.env.world, c, step, b, st, Lens(cx.fr), u.inDefer, fuel)
  }

  function Unwound(cx: Cx, open: seq<seq<Stmt>>, gs: seq<nat>, st: State): (r: Outcome)
    requires ScopesOk(open, Lens(cx.fr)) && |gs| == |open| && Shaped(st, Lens(cx.fr))
    ensures r.Done? ==> Shaped(r.st, Lens(cx.fr))
  {
    RunScopes(cx.env.world, open, gs, st, Lens(cx.fr))
  }

  /** Every open scope has its fuel. */
  ghost predicate Fuelled(cx: Cx, u: Unwind, gs: seq<nat>) {
    UnwindOk(u, Lens(cx.fr)) && |gs| == |u.open|
  }

  /** The scopes a jump to the innermost loop leaves have the first fuels. */
  function InnerFuel(u: Unwind, gs: seq<nat>): seq<nat>
    requires u.outsideLoop <= |gs|
  {
    gs[..|gs| - u.outsideLoop]
  }

  /** Control came to `at`, in the state the run ends with. */
  ghost predicate Arrived(cx: Cx, r: Outcome, m: Mach, k: Mach, at: int, d: nat, tg: Targets) {
    && Reach(cx, m, k)
    && match r
       case Done(_, st) => k.pc == at && Rep(cx, st, k, d) && Kept(cx, m, k)
       case Fault(f, tr) => Faulted(f, tr, k, tg)
       case Timeout => true
  }

  /** The function returned v to its caller: the caller's frame pointer is back, the stack pointer
      is above the return address, and nothing above the frame changed. */
  ghost predicate Gone(cx: Cx, v: I64, tr: Trace, m: Mach, k: Mach) {
    && Ok(m) && Ok(k) && k.status == Halted && k.trace == tr && k.regs[RAX] == v
    && k.regs[RSP] == cx.rbp + 16 && k.regs[RBP] == Get(m.mem, cx.rbp) && k.pc == Get(m.mem, cx.rbp + 8)
    && forall a :: a >= cx.rbp ==> Get(k.mem, a) == Get(m.mem, a)
  }

  ghost predicate Left(cx: Cx, v: I64, r: Outcome, m: Mach, k: Mach, tg: Targets) {
    && Reach(cx, m, k)
    && match r
       case Done(_, st) => Gone(cx, v, st.trace, m, k)
       case Fault(f, tr) => Faulted(f, tr, k, tg)
       case Timeout => true
  }

  /** What a run of a statement means for its code, |code| == n. A jump or return first runs the
      defers of the scopes it leaves. */
  ghost predicate Matches(cx: Cx, r: Outcome, u: Unwind, gs: seq<nat>, m: Mach, k: Mach, n: nat, d: nat, tg: Targets)
    requires Fuelled(cx, u, gs) && (r.Done? ==> Shaped(r.st, Lens(cx.fr)))
  {
    if r.Done? && r.x != Normal then
      match r.x
      case Broke => Arrived(cx, Unwound(cx, Inner(u), InnerFuel(u, gs), r.st), m, k, tg.brk, d, tg)
      case Continued => Arrived(cx, Unwound(cx, Inner(u), InnerFuel(u, gs), r.st), m, k, tg.cont, d, tg)
      case Returned(v) => Left(cx, v, Unwound(cx, u.open, gs, r.st), m, k, tg)
      case Normal => true
    else Arrived(cx, r, m, k, m.pc + n, d, tg)
  }

  /** Ready to run the code at m. */
  ghost predicate Ready(cx: Cx, st: State, m: Mach, d: nat, code: seq<Sym>, tg: Targets) {
    CxOk(cx) && Rep(cx, st, m, d) && CodeAt(cx.c, m.pc, code, tg)
  }

  // ----- gluing -----

  /** A quiet prefix that ends at the same depth. */
  ghost predicate Quietly(cx: Cx, m: Mach, k: Mach) {
    Reach(cx, m, k) && Kept(cx, m, k) && Ok(k) && k.regs[RSP] == m.regs[RSP] && m.regs[RSP] <= cx.rbp
  }

  lemma QuietBoth(cx: Cx, a: Mach, b: Mach, c: Mach)
    requires Quietly(cx, a, b) && Quietly(cx, b, c)
    ensures Quietly(cx, a, c)
  {
    hide Reach, Kept;
    KeptChain(cx, a, b, c);
    KeptIsOk(cx, a, b);
    KeptIsOk(cx, b, c);
  }

  lemma AfterQuiet(cx: Cx, r: Outcome, m: Mach, k1: Mach, k: Mach, at: int, d: nat, tg: Targets)
    requires Quietly(cx, m, k1) && Arrived(cx, r, k1, k, at, d, tg)
    ensures Arrived(cx, r, m, k, at, d, tg)
  {
    hide Reach, Kept, Rep;
    KeptIsOk(cx, m, k1);
    ReachTrans(cx, m, k1, k);
    if r.Done? { KeptChain(cx, m, k1, k); }
  }

  lemma GoneAfter(cx: Cx, v: I64, tr: Trace, m: Mach, k1: Mach, k: Mach)
    requires Ok(m) && Kept(cx, m, k1) && m.regs[RSP] <= cx.rbp && Gone(cx, v, tr, k1, k)
    ensures Gone(cx, v, tr, m, k)
  {}

  lemma LeftAfter(cx: Cx, v: I64, r: Outcome, m: Mach, k1: Mach, k: Mach, tg: Targets)
    requires Quietly(cx, m, k1) && Left(cx, v, r, k1, k, tg)
    ensures Left(cx, v, r, m, k, tg)
  {
    hide Reach, Kept, Gone;
    KeptIsOk(cx, m, k1);
    ReachTrans(cx, m, k1, k);
    if r.Done? { GoneAfter(cx, v, r.st.trace, m, k1, k); }
  }

  lemma MatchesAfter(cx: Cx, r: Outcome, u: Unwind, gs: seq<nat>, m: Mach, k1: Mach, k: Mach, n1: nat, n2: nat,
      d: nat, tg: Targets)
    requires Fuelled(cx, u, gs) && (r.Done? ==> Shaped(r.st, Lens(cx.fr)))
    requires Quietly(cx, m, k1) && k1.pc == m.pc + n1 && Matches(cx, r, u, gs, k1, k, n2, d, tg)
    ensures Matches(cx, r, u, gs, m, k, n1 + n2, d, tg)
  {
    hide Arrived, Left, Quietly, Shaped, Reach, Kept;
    if r.Done? && r.x != Normal {
      var inner := Unwound(cx, Inner(u), InnerFuel(u, gs), r.st);
      match r.x
      case Broke => AfterQuiet(cx, inner, m, k1, k, tg.brk, d, tg);
      case Continued => AfterQuiet(cx, inner, m, k1, k, tg.cont, d, tg);
      case Returned(v) => LeftAfter(cx, v, Unwound(cx, u.open, gs, r.st), m, k1, k, tg);
      case Normal =>
    } else {
      AfterQuiet(cx, r, m, k1, k, m.pc + n1 + n2, d, tg);
    }
  }

  lemma ReadyOk(cx: Cx, st: State, m: Mach, d: nat, code: seq<Sym>, tg: Targets)
    requires Ready(cx, st, m, d, code, tg)
    ensures Ok(m) && Shaped(st, Lens(cx.fr)) && m.regs[RSP] == cx.rbp - cx.size - 8 * d && m.regs[RSP] <= cx.rbp
    ensures CxOk(cx) && Rep(cx, st, m, d)
  {}

  /** The end of one piece of code is the start of the next. */
  lemma Proceed(cx: Cx, st: State, st1: State, m: Mach, k: Mach, d: nat, a: seq<Sym>, b: seq<Sym>, tg: Targets)
    requires Ready(cx, st, m, d, a + b, tg) && Reach(cx, m, k) && Kept(cx, m, k) && Rep(cx, st1, k, d)
        && k.pc == m.pc + |a|
    ensures Quietly(cx, m, k) && Ready(cx, st1, k, d, b, tg)
  {
    RepOk(cx, st, m, d);
    RepOk(cx, st1, k, d);
    hide CodeAt, Rep, Reach, Kept;
    CodeSplit(cx.c, m.pc, a, b, tg);
  }

  lemma Start(cx: Cx, st: State, m: Mach, d: nat, a: seq<Sym>, b: seq<Sym>, tg: Targets)
    requires Ready(cx, st, m, d, a + b, tg)
    ensures Ready(cx, st, m, d, a, tg)
  {
    hide CodeAt, Rep;
    CodeSplit(cx.c, m.pc, a, b, tg);
  }

  // ----- expressions as statements -----

  function MeaningOpt(cx: Cx, e: Option<Expr>, missing: I64, st: State): Result
    requires OptOk(e, Lens(cx.fr)) && Shaped(st, Lens(cx.fr))
  {
    EvalOpt(cx.env.world, e, missing, st, Lens(cx.fr))
  }

  /** An expression whose value is not needed. */
  lemma EffectSim(cx: Cx, e: Option<Expr>, missing: I64, st: State, m: Mach, d: nat, tg: Targets) returns (k: Mach)
    requires OptOk(e, Lens(cx.fr)) && Ready(cx, st, m, d, OptCode(cx.fr, e, [], d), tg)
    ensures Shaped(st, Lens(cx.fr)) && Reach(cx, m, k)
    ensures match MeaningOpt(cx, e, missing, st)
            case Stop(f, tr) => Faulted(f, tr, k, tg)
            case Val(v, st1) => k.pc == m.pc + |OptCode(cx.fr, e, [], d)| && Rep(cx, st1, k, d) && Kept(cx, m, k)
  {
    hide ExprCode, ExprOk, Eval, Rep, CodeAt, CxOk, Reach, Kept;
    ReadyOk(cx, st, m, d, OptCode(cx.fr, e, [], d), tg);
    if e.None? {
      k := m;
      ReachSelf(cx, m);
      KeptSame(cx, m, m);
    } else {
      k := ExprSim(cx, e.value, st, m, d, tg);
    }
  }

  /** A returned value; a missing one is 0. */
  lemma ValueSim(cx: Cx, e: Option<Expr>, st: State, m: Mach, d: nat, tg: Targets) returns (k: Mach)
    requires OptOk(e, Lens(cx.fr)) && Ready(cx, st, m, d, OptCode(cx.fr, e, P(MovImm(RAX, 0)), d), tg)
    ensures Shaped(st, Lens(cx.fr))
        && Computed(cx, MeaningOpt(cx, e, 0, st), m, k, |OptCode(cx.fr, e, P(MovImm(RAX, 0)), d)|, d, tg)
  {
    hide ExprCode, ExprOk, Eval, Rep, CodeAt, CxOk, Computed;
    ReadyOk(cx, st, m, d, OptCode(cx.fr, e, P(MovImm(RAX, 0)), d), tg);
    if e.None? {
      k := NumSim(cx, 0, st, m, d, tg);
    } else {
      k := ExprSim(cx, e.value, st, m, d, tg);
    }
  }

  lemma ExpressionSim(cx: Cx, e: Option<Expr>, u: Unwind, gs: seq<nat>, fuel: nat, st: State, m: Mach, d: nat,
      tg: Targets) returns (k: Mach)
    requires StmtOk(Expression(e), Lens(cx.fr), u.inDefer) && Fuelled(cx, u, gs)
        && Ready(cx, st, m, d, StmtCode(cx.fr, Expression(e), u, d), tg)
    ensures Shaped(st, Lens(cx.fr))
        && Matches(cx, Exe(cx, Expression(e), st, u, fuel), u, gs, m, k, |StmtCode(cx.fr, Expression(e), u, d)|, d, tg)
  {
    ReadyOk(cx, st, m, d, StmtCode(cx.fr, Expression(e), u, d), tg);
    hide ExprCode, ExprOk, Eval, Ready, Reach, Kept, Rep, OptCode;
    k := EffectSim(cx, e, 0, st, m, d, tg);
  }

  // ----- unwinding -----

  lemma NoPending(cx: Cx, fuel: nat, st: State, m: Mach, d: nat, tg: Targets)
    requires Ready(cx, st, m, d, PendingCode(cx.fr, [], d), tg)
    ensures Shaped(st, Lens(cx.fr)) && Arrived(cx, ExePending(cx, [], st, fuel), m, m, m.pc, d, tg)
  {
    ReachSelf(cx, m);
    KeptSame(cx, m, m);
  }

  lemma PendingSim(cx: Cx, l: seq<Stmt>, fuel: nat, st: State, m: Mach, d: nat, tg: Targets) returns (k: Mach)
    requires PendingOk(l, Lens(cx.fr)) && Ready(cx, st, m, d, PendingCode(cx.fr, l, d), tg)
    ensures Shaped(st, Lens(cx.fr))
        && Arrived(cx, ExePending(cx, l, st, fuel), m, k, m.pc + |PendingCode(cx.fr, l, d)|, d, tg)
    decreases SizeAll(l), fuel, 0
  {
    hide Ready, Rep, Reach, Kept, StmtCode, Exec, StmtOk;
    ReadyOk(cx, st, m, d, PendingCode(cx.fr, l, d), tg);
    if l == [] {
      k := m;
      NoPending(cx, fuel, st, m, d, tg);
    } else {
      var c1, c2 := StmtCode(cx.fr, l[0], DEFERRED, d), PendingCode(cx.fr, l[1..], d);
      assert PendingCode(cx.fr, l, d) == c1 + c2;
      DeferEndsNormally(cx.env.world, l[0], st, Lens(cx.fr), fuel);
      Start(cx, st, m, d, c1, c2, tg);
      var k1 := StmtSim(cx, l[0], DEFERRED, [], fuel, st, m, d, tg);
      var r := Exe(cx, l[0], st, DEFERRED, fuel);
      if r.Done? {
        Proceed(cx, st, r.st, m, k1, d, c1, c2, tg);
        k := PendingSim(cx, l[1..], fuel, r.st, k1, d, tg);
        AfterQuiet(cx, ExePending(cx, l[1..], r.st, fuel), m, k1, k, m.pc + |c1 + c2|, d, tg);
      } else {
        k := k1;
      }
    }
  }

  lemma UnwindSim(cx: Cx, open: seq<seq<Stmt>>, gs: seq<nat>, st: State, m: Mach, d: nat, tg: Targets) returns (k: Mach)
    requires ScopesOk(open, Lens(cx.fr)) && |gs| == |open| && Ready(cx, st, m, d, UnwindCode(cx.fr, open, d), tg)
    ensures Shaped(st, Lens(cx.fr))
        && Arrived(cx, Unwound(cx, open, gs, st), m, k, m.pc + |UnwindCode(cx.fr, open, d)|, d, tg)
    decreases SizeOpen(open), 0, 0
  {
    hide Rep, Reach, Kept, CodeAt, CxOk, Get, Step, Run;
    ReadyOk(cx, st, m, d, UnwindCode(cx.fr, open, d), tg);
    if open == [] {
      k := m;
      ReachSelf(cx, m);
      KeptSame(cx, m, m);
    } else {
      var c1, c2 := PendingCode(cx.fr, open[0], d), UnwindCode(cx.fr, open[1..], d);
      assert UnwindCode(cx.fr, open, d) == c1 + c2;
      PendingEndsNormally(cx.env.world, open[0], st, Lens(cx.fr), gs[0]);
      hide Ready, Rep, Reach, Kept, UnwindCode, PendingCode, RunPending;
      Start(cx, st, m, d, c1, c2, tg);
      var k1 := PendingSim(cx, open[0], gs[0], st, m, d, tg);
      var r := ExePending(cx, open[0], st, gs[0]);
      if r.Done? {
        Proceed(cx, st, r.st, m, k1, d, c1, c2, tg);
        k := UnwindSim(cx, open[1..], gs[1..], r.st, k1, d, tg);
        AfterQuiet(cx, Unwound(cx, open[1..], gs[1..], r.st), m, k1, k, m.pc + |c1 + c2|, d, tg);
      } else {
        k := k1;
      }
    }
  }

  /** `break` and `continue`: the defers of the scopes inside the loop, then the jump. */
  lemma JumpSim(cx: Cx, u: Unwind, gs: seq<nat>, l: Label, st: State, m: Mach, d: nat, tg: Targets) returns (k: Mach)
    requires Fuelled(cx, u, gs) && (l == ToBreak || l == ToContinue)
    requires Ready(cx, st, m, d, UnwindCode(cx.fr, Inner(u), d) + [SymJmp(l)], tg)
    ensures Shaped(st, Lens(cx.fr))
    ensures Arrived(cx, Unwound(cx, Inner(u), InnerFuel(u, gs), st), m, k, if l == ToBreak then tg.brk
        else tg.cont, d, tg)
    decreases Weight(u) + 1, 0, 0
  {
    WeightOfPart(u.open, |u.open| - u.outsideLoop);
    var open, c := Inner(u), UnwindCode(cx.fr, Inner(u), d);
    ReadyOk(cx, st, m, d, c + [SymJmp(l)], tg);
    Start(cx, st, m, d, c, [SymJmp(l)], tg);
    hide Rep, Reach, Kept, UnwindCode, RunScopes;
    k := UnwindSim(cx, open, InnerFuel(u, gs), st, m, d, tg);
    var r := Unwound(cx, open, InnerFuel(u, gs), st);
    if r.Done? {
      Proceed(cx, st, r.st, m, k, d, c, [SymJmp(l)], tg);
      hide CodeAt;
      var k1 := DoJump(cx, r.st, k, d, l, tg);
      KeptChain(cx, m, k, k1);
      k := k1;
    }
  }

  /** `leave; ret`. */
  lemma LeaveSim(cx: Cx, v: I64, st: State, m: Mach, d: nat, tg: Targets) returns (k: Mach)
    requires Ready(cx, st, m, d, P(Leave) + P(Ret), tg) && m.regs[RAX] == v
    ensures Reach(cx, m, k) && Gone(cx, v, st.trace, m, k)
  {
    hide Run, Reach, CodeAt, Step;
    LeaveSteps(cx.env, m);
    Next2(cx, m, Leave, Ret, tg);
    k := Step(cx.env, Ret, Step(cx.env, Leave, m));
  }

  lemma LeaveSteps(env: Env, m: Mach)
    requires Ok(m)
    ensures var k1 := Step(env, Leave, m); k1.status == m.status && k1.pc == m.pc + 1 && Ok(k1)
    ensures var rbp := m.regs[RBP];
      Step(env, Ret, Step(env, Leave, m)) ==
      m.(regs := m.regs[RSP := rbp + 16][RBP := Get(m.mem, rbp)], pc := Get(m.mem, rbp + 8), status := Halted)
  {}

  /** The value survives the defers on the stack. */
  lemma ReturnSim(cx: Cx, v: I64, open: seq<seq<Stmt>>, gs: seq<nat>, st: State, m: Mach, d: nat,
      tg: Targets) returns (k: Mach)
    requires ScopesOk(open, Lens(cx.fr)) && |gs| == |open| && Ready(cx, st, m, d, LeaveCode(cx.fr, open, d), tg)
        && m.regs[RAX] == v
    ensures Shaped(st, Lens(cx.fr)) && Left(cx, v, Unwound(cx, open, gs, st), m, k, tg)
    decreases SizeOpen(open), 0, 2
  {
    ReadyOk(cx, st, m, d, LeaveCode(cx.fr, open, d), tg);
    if open == [] {
      assert LeaveCode(cx.fr, open, d) == P(Leave) + P(Ret);
      k := LeaveSim(cx, v, st, m, d, tg);
    } else {
      var c := UnwindCode(cx.fr, open, d + 1);
      assert LeaveCode(cx.fr, open, d) == P(Push(RAX)) + (c + (P(Pop(RAX)) + (P(Leave) + P(Ret))));
      hide Rep, Reach, Kept, UnwindCode, RunScopes, LeaveCode;
      CodeSplit(cx.c, m.pc, P(Push(RAX)), c + (P(Pop(RAX)) + (P(Leave) + P(Ret))), tg);
      hide CodeAt, Step, Run, Get;
      var k1 := DoPush(cx, st, m, d, RAX, tg);
      k := UnwoundReturn(cx, v, open, gs, st, m, k1, d, tg);
    }
  }

  /** The same behind the push. */
  lemma UnwoundReturn(cx: Cx, v: I64, open: seq<seq<Stmt>>, gs: seq<nat>, st: State, m: Mach, k1: Mach, d: nat,
      tg: Targets) returns (k: Mach)
    requires ScopesOk(open, Lens(cx.fr)) && |gs| == |open| && Ok(m) && Reach(cx, m, k1) && Kept(cx, m, k1)
        && m.regs[RSP] == cx.rbp - cx.size - 8 * d
    requires Ready(cx, st, k1, d + 1, UnwindCode(cx.fr, open, d + 1) + (P(Pop(RAX)) + (P(Leave) + P(Ret))), tg)
    requires Get(k1.mem, k1.regs[RSP]) == v
    ensures Shaped(st, Lens(cx.fr)) && Left(cx, v, Unwound(cx, open, gs, st), m, k, tg)
    decreases SizeOpen(open), 0, 1
  {
    hide Rep, Reach, Kept, CodeAt, CxOk, Get, Step, Run, UnwindCode, RunScopes, Gone;
    var c, tail := UnwindCode(cx.fr, open, d + 1), P(Pop(RAX)) + (P(Leave) + P(Ret));
    ReadyOk(cx, st, k1, d + 1, c + tail, tg);
    Start(cx, st, k1, d + 1, c, tail, tg);
    var k2 := UnwindSim(cx, open, gs, st, k1, d + 1, tg);
    var r := Unwound(cx, open, gs, st);
    if r.Done? {
      Proceed(cx, st, r.st, k1, k2, d + 1, c, tail, tg);
      Saved(cx, k1, k2, v);
      RepOk(cx, r.st, k2, d + 1);
      KeptChain(cx, m, k1, k2);
      var k3 := PopAndLeave(cx, v, r.st, k2, d, tg);
      GoneAfter(cx, v, r.st.trace, m, k2, k3);
      ReachTrans(cx, m, k2, k3);
      k := k3;
    } else {
      k := k2;
      ReachTrans(cx, m, k1, k);
    }
  }

  lemma PopAndLeave(cx: Cx, v: I64, st: State, m: Mach, d: nat, tg: Targets) returns (k: Mach)
    requires Ready(cx, st, m, d + 1, P(Pop(RAX)) + (P(Leave) + P(Ret)), tg) && Get(m.mem, m.regs[RSP]) == v
    ensures Reach(cx, m, k) && Gone(cx, v, st.trace, m, k)
  {
    hide CodeAt, Rep, Reach, Step, Run;
    CodeSplit(cx.c, m.pc, P(Pop(RAX)), P(Leave) + P(Ret), tg);
    ReadyOk(cx, st, m, d + 1, P(Pop(RAX)) + (P(Leave) + P(Ret)), tg);
    var k1 := DoPop(cx, st, m, d, RAX, tg);
    k := LeaveSim(cx, v, st, k1, d, tg);
    ReachTrans(cx, m, k1, k);
    assert Gone(cx, v, st.trace, k1, k) ==> Gone(cx, v, st.trace, m, k) by { hide Get; }
  }

  // ----- blocks -----

  /** The scopes of u when l has been registered in the innermost one. */
  function Owing(u: Unwind, l: seq<Stmt>): Unwind
    requires u.open != []
  {
    u.(open := [l + u.open[0]] + u.open[1..])
  }

  lemma PendingJoin(l: seq<Stmt>, r: seq<Stmt>, lens: seq<nat>)
    requires PendingOk(l, lens) && PendingOk(r, lens)
    ensures PendingOk(l + r, lens)
    decreases l
  {
    if l == [] {
      assert l + r == r;
    } else {
      assert (l + r)[1..] == l[1..] + r;
      PendingJoin(l[1..], r, lens);
    }
  }

  lemma OwingOk(cx: Cx, u: Unwind, gs: seq<nat>, l: seq<Stmt>)
    requires u.open != [] && Fuelled(cx, u, gs) && PendingOk(l, Lens(cx.fr))
    ensures Fuelled(cx, Owing(u, l), gs)
  {
    PendingJoin(l, u.open[0], Lens(cx.fr));
  }

  lemma OwingNothing(u: Unwind)
    requires u.open != []
    ensures Owing(u, []) == u
  {
    assert [] + u.open[0] == u.open[0];
    assert [u.open[0]] + u.open[1..] == u.open;
  }

  lemma OwingRegistered(u: Unwind, l: seq<Stmt>, x: Stmt)
    requires u.open != []
    ensures Register(u, x).open != [] && Owing(Register(u, x), l) == Owing(u, l + [x])
  {
    assert l + ([x] + u.open[0]) == (l + [x]) + u.open[0];
  }

  /** A block is open, inside the innermost loop. */
  predicate InBlock(u: Unwind) { u.outsideLoop < |u.open| }

  lemma RegisterOk(cx: Cx, u: Unwind, gs: seq<nat>, x: Stmt)
    requires InBlock(u) && Fuelled(cx, u, gs) && Deferrable(x, Lens(cx.fr))
    ensures InBlock(Register(u, x)) && Fuelled(cx, Register(u, x), gs) && Register(u, x).inDefer == u.inDefer
  {
    var l := [x] + u.open[0];
    assert l[1..] == u.open[0];
    assert PendingOk(l, Lens(cx.fr));
  }

  /** Where an early exit goes does not depend on the length of the code. */
  lemma MatchesElsewhere(cx: Cx, r: Outcome, u: Unwind, gs: seq<nat>, m: Mach, k: Mach, n: nat, n': nat, d: nat,
      tg: Targets)
    requires Fuelled(cx, u, gs) && (r.Done? ==> Shaped(r.st, Lens(cx.fr))) && !(r.Done? && r.x == Normal)
    requires Matches(cx, r, u, gs, m, k, n, d, tg)
    ensures Matches(cx, r, u, gs, m, k, n', d, tg)
  {}

  lemma BodySim(cx: Cx, b: seq<Stmt>, u: Unwind, gs: seq<nat>, fuel: nat, st: State, m: Mach, d: nat,
      tg: Targets) returns (k: Mach)
    requires BlockOk(b, Lens(cx.fr), u.inDefer) && InBlock(u) && Fuelled(cx, u, gs)
        && Ready(cx, st, m, d, BlockCode(cx.fr, b, u, d), tg)
    ensures Shaped(st, Lens(cx.fr)) && Fuelled(cx, Owing(u, ExeBlock(cx, b, st, u, fuel).pending), gs)
    ensures Matches(cx, ExeBlock(cx, b, st, u, fuel).out, Owing(u, ExeBlock(cx, b, st, u, fuel).pending), gs, m, k,
        |BlockCode(cx.fr, b, u, d)|, d, tg)
    decreases Weight(u) + SizeAll(b), fuel, 1
  {
    ReadyOk(cx, st, m, d, BlockCode(cx.fr, b, u, d), tg);
    if b == [] {
      OwingNothing(u);
      k := m;
      ReachSelf(cx, m);
      KeptSame(cx, m, m);
    } else if b[0].Defer? {
      var x := b[0].d;
      RegisterOk(cx, u, gs, x);
      RegisterWeight(u, x);
      assert SizeAll(b) == 2 + Size(x) + SizeAll(b[1..]);
      k := BodySim(cx, b[1..], Register(u, x), gs, fuel, st, m, d, tg);
      OwingRegistered(u, ExeBlock(cx, b[1..], st, u, fuel).pending, x);
    } else {
      var c1, c2 := StmtCode(cx.fr, b[0], u, d), BlockCode(cx.fr, b[1..], u, d);
      assert BlockCode(cx.fr, b, u, d) == c1 + c2;
      var r := Exe(cx, b[0], st, u, fuel);
      BlockStep(cx, b, u, fuel, st);
      OwingNothing(u);
      hide Ready, Rep, Reach, Kept, StmtCode, BlockCode, Exec, ExecBlock, ExeBlock, StmtOk, Owing;
      Start(cx, st, m, d, c1, c2, tg);
      var k1 := StmtSim(cx, b[0], u, gs, fuel, st, m, d, tg);
      if r.Done? && r.x == Normal {
        Proceed(cx, st, r.st, m, k1, d, c1, c2, tg);
        k := BodySim(cx, b[1..], u, gs, fuel, r.st, k1, d, tg);
        var rest := ExeBlock(cx, b[1..], r.st, u, fuel);
        MatchesAfter(cx, rest.out, Owing(u, rest.pending), gs, m, k1, k, |c1|, |c2|, d, tg);
      } else {
        k := k1;
        MatchesElsewhere(cx, r, u, gs, m, k, |c1|, |c1 + c2|, d, tg);
      }
    }
  }

  lemma BlockStep(cx: Cx, b: seq<Stmt>, u: Unwind, fuel: nat, st: State)
    requires BlockOk(b, Lens(cx.fr), u.inDefer) && b != [] && !b[0].Defer? && Shaped(st, Lens(cx.fr))
    ensures StmtOk(b[0], Lens(cx.fr), u.inDefer) && BlockOk(b[1..], Lens(cx.fr), u.inDefer)
    ensures var r := Exe(cx, b[0], st, u, fuel);
      ExeBlock(cx, b, st, u, fuel) == if r.Done? && r.x == Normal then ExeBlock(cx, b[1..], r.st, u, fuel)
          else BlockRun(r, [])
  {
    hide Exec;
  }

  /** The scopes outside a block, and their fuel. */
  lemma OutsideBlock(cx: Cx, u: Unwind, gs: seq<nat>, l: seq<Stmt>, fuel: nat, st: State)
    requires Fuelled(cx, u, gs) && PendingOk(l, Lens(cx.fr)) && Shaped(st, Lens(cx.fr))
    ensures var w := Owing(OpenScope(u), l);
      && Fuelled(cx, w, [fuel] + gs)
      && (var r := ExePending(cx, l, st, fuel);
        && Unwound(cx, Inner(w), InnerFuel(w, [fuel] + gs), st)
            == (if r.Done? then Unwound(cx, Inner(u), InnerFuel(u, gs), r.st) else r)
        && Unwound(cx, w.open, [fuel] + gs, st) == (if r.Done? then Unwound(cx, u.open, gs, r.st) else r))
  {
    var w := Owing(OpenScope(u), l);
    OwingOk(cx, OpenScope(u), [fuel] + gs, l);
    assert l + [] == l;
    assert w.open == [l] + u.open;
    assert Inner(w) == [l] + Inner(u);
    assert InnerFuel(w, [fuel] + gs) == [fuel] + InnerFuel(u, gs);
    OneScope(cx.env.world, l, Inner(u), fuel, InnerFuel(u, gs), st, Lens(cx.fr));
    OneScope(cx.env.world, l, u.open, fuel, gs, st, Lens(cx.fr));
  }

  lemma OneScope(o: World, l: seq<Stmt>, open: seq<seq<Stmt>>, g: nat, gs: seq<nat>, st: State, lens: seq<nat>)
    requires PendingOk(l, lens) && ScopesOk(open, lens) && |gs| == |open| && Shaped(st, lens)
    ensures ScopesOk([l] + open, lens)
    ensures var r := RunPending(o, l, st, lens, g);
      RunScopes(o, [l] + open, [g] + gs, st, lens) == if r.Done? then RunScopes(o, open, gs, r.st, lens) else r
  {
    assert ([l] + open)[1..] == open && ([g] + gs)[1..] == gs;
  }

  lemma BlockMeaning(cx: Cx, b: seq<Stmt>, u: Unwind, fuel: nat, st: State)
    requires BlockOk(b, Lens(cx.fr), u.inDefer) && Shaped(st, Lens(cx.fr))
    ensures var run := ExeBlock(cx, b, st, u, fuel);
      Exe(cx, Block(b), st, u, fuel) ==
        if !run.out.Done? then run.out
        else
          var p := ExePending(cx, run.pending, run.out.st, fuel);
          if p.Done? then Done(run.out.x, p.st) else p
  {
    var run := ExeBlock(cx, b, st, u, fuel);
    if run.out.Done? { PendingEndsNormally(cx.env.world, run.pending, run.out.st, Lens(cx.fr), fuel); }
    hide RunPending, ExecBlock;
  }

  lemma BlockSim(cx: Cx, b: seq<Stmt>, u: Unwind, gs: seq<nat>, fuel: nat, st: State, m: Mach, d: nat,
      tg: Targets) returns (k: Mach)
    requires StmtOk(Block(b), Lens(cx.fr), u.inDefer) && Fuelled(cx, u, gs)
        && Ready(cx, st, m, d, StmtCode(cx.fr, Block(b), u, d), tg)
    ensures Shaped(st, Lens(cx.fr))
        && Matches(cx, Exe(cx, Block(b), st, u, fuel), u, gs, m, k, |StmtCode(cx.fr, Block(b), u, d)|, d, tg)
    decreases Weight(u) + Size(Block(b)), fuel, 2
  {
    hide Rep, Reach, Kept, CodeAt, CxOk, Get, Step, Run, Exec, RunPending;
    var u', gs' := OpenScope(u), [fuel] + gs;
    DefersOk(b, Lens(cx.fr), u.inDefer);
    var c1, c2 := BlockCode(cx.fr, b, u', d), PendingCode(cx.fr, DefersOf(b), d);
    assert StmtCode(cx.fr, Block(b), u, d) == c1 + c2;
    ReadyOk(cx, st, m, d, c1 + c2, tg);
    Start(cx, st, m, d, c1, c2, tg);
    assert PendingOk([], Lens(cx.fr));
    assert Fuelled(cx, u', gs');
    BlockMeaning(cx, b, u, fuel, st);
    var run := ExeBlock(cx, b, st, u, fuel);
    hide Ready, Rep, Reach, Kept, StmtCode, BlockCode, PendingCode, ExecBlock, Exec, Exe, RunPending, RunScopes,
        StmtOk, BlockOk;
    k := BodySim(cx, b, u', gs', fuel, st, m, d, tg);
    if run.out.Done? {
      if run.out.x == Normal {
        PendingAtEnd(cx.env.world, b, st, Lens(cx.fr), u.inDefer, fuel);
        Proceed(cx, st, run.out.st, m, k, d, c1, c2, tg);
        var k1 := k;
        k := PendingSim(cx, run.pending, fuel, run.out.st, k1, d, tg);
        AfterQuiet(cx, ExePending(cx, run.pending, run.out.st, fuel), m, k1, k, m.pc + |c1 + c2|, d, tg);
      } else {
        OutsideBlock(cx, u, gs, run.pending, fuel, run.out.st);
      }
    }
  }

  // ----- branches -----

  /** The machine has jumped to l if the value was 0, and is behind the jump at `at` otherwise. */
  ghost predicate Branched(cx: Cx, r: Result, l: Label, m: Mach, k: Mach, at: int, d: nat, tg: Targets) {
    match r
    case Stop(f, tr) => Faulted(f, tr, k, tg)
    case Val(v, st) =>
      Rep(cx, st, k, d) && Quietly(cx, m, k) && k.pc == at + 2 + if v == 0 then Displacement(l, at + 1, tg) else 0
  }

  /** The condition, and the jump if it is 0. */
  lemma BranchSim(cx: Cx, c: Expr, l: Label, st: State, m: Mach, d: nat, tg: Targets) returns (k: Mach)
    requires ExprOk(c, Lens(cx.fr)) && Ready(cx, st, m, d, Branch(ExprCode(cx.fr, c, d), l), tg)
    ensures Shaped(st, Lens(cx.fr)) && Reach(cx, m, k)
    ensures Branched(cx, Meaning(cx, c, st), l, m, k, m.pc + |ExprCode(cx.fr, c, d)|, d, tg)
  {
    var cc, test := ExprCode(cx.fr, c, d), P(TestRax) + [SymJcc(E, l)];
    ReadyOk(cx, st, m, d, cc + test, tg);
    Start(cx, st, m, d, cc, test, tg);
    hide ExprCode, ExprOk, Eval, Meaning, Rep, Reach, Kept, CodeAt;
    var k1 := ExprSim(cx, c, st, m, d, tg);
    match Meaning(cx, c, st)
    case Stop(f, tr) => k := k1;
    case Val(v, st1) =>
      Proceed(cx, st, st1, m, k1, d, cc, test, tg);
      k := TestJump(cx, v, st1, k1, d, E, l, tg);
      KeptChain(cx, m, k1, k);
      RepOk(cx, st1, k, d);
  }

  lemma IfMeaning(cx: Cx, c: Expr, t: Stmt, u: Unwind, fuel: nat, st: State)
    requires StmtOk(If(c, t, None), Lens(cx.fr), u.inDefer) && Shaped(st, Lens(cx.fr))
    ensures var r := Meaning(cx, c, st);
      Exe(cx, If(c, t, None), st, u, fuel) ==
        if r.Stop? then Fault(r.f, r.trace) else if r.v != 0 then Exe(cx, t, r.st, u, fuel) else Done(Normal, r.st)
  {
    hide Eval;
  }

  lemma IfSim(cx: Cx, c: Expr, t: Stmt, u: Unwind, gs: seq<nat>, fuel: nat, st: State, m: Mach, d: nat,
      tg: Targets) returns (k: Mach)
    requires StmtOk(If(c, t, None), Lens(cx.fr), u.inDefer) && Fuelled(cx, u, gs)
        && Ready(cx, st, m, d, StmtCode(cx.fr, If(c, t, None), u, d), tg)
    ensures Shaped(st, Lens(cx.fr))
        && Matches(cx, Exe(cx, If(c, t, None), st, u, fuel), u, gs, m, k, |StmtCode(cx.fr, If(c, t, None), u, d)|, d,
        tg)
    decreases Weight(u) + Size(If(c, t, None)), fuel, 2
  {
    hide ExprCode, CodeAt, Rep, Kept, Reach, Eval, Meaning, Branch;
    var tc := StmtCode(cx.fr, t, u, d);
    var head := Branch(ExprCode(cx.fr, c, d), Rel(|tc|));
    assert StmtCode(cx.fr, If(c, t, None), u, d) == head + tc;
    ReadyOk(cx, st, m, d, head + tc, tg);
    Start(cx, st, m, d, head, tc, tg);
    var r := Meaning(cx, c, st);
    IfMeaning(cx, c, t, u, fuel, st);
    hide Rep, Reach, Kept, StmtCode, ExprCode, Exec, Eval, Exe, Meaning, ExprOk, CodeAt;
    var k1 := BranchSim(cx, c, Rel(|tc|), st, m, d, tg);
    match r
    case Stop(f, tr) => k := k1;
    case Val(v, st1) =>
      if v == 0 {
        k := k1;
      } else {
        Proceed(cx, st, st1, m, k1, d, head, tc, tg);
        k := StmtSim(cx, t, u, gs, fuel, st1, k1, d, tg);
        MatchesAfter(cx, Exe(cx, t, st1, u, fuel), u, gs, m, k1, k, |head|, |tc|, d, tg);
      }
  }

  /** The taken branch, then the jump over the other one. */
  lemma ThenSim(cx: Cx, t: Stmt, skip: nat, u: Unwind, gs: seq<nat>, fuel: nat, st: State, m: Mach, d: nat,
      tg: Targets) returns (k: Mach)
    requires StmtOk(t, Lens(cx.fr), u.inDefer) && Fuelled(cx, u, gs)
        && Ready(cx, st, m, d, Skipping(StmtCode(cx.fr, t, u, d), skip), tg)
    ensures Shaped(st, Lens(cx.fr))
        && Matches(cx, Exe(cx, t, st, u, fuel), u, gs, m, k, |StmtCode(cx.fr, t, u, d)| + 1 + skip, d, tg)
    decreases Weight(u) + Size(t), fuel, 5
  {
    hide Step, Run, Rep, Reach, Kept, StmtCode, Exec, Exe, Get, CxOk;
    var tc := StmtCode(cx.fr, t, u, d);
    ReadyOk(cx, st, m, d, tc + [SymJmp(Rel(skip))], tg);
    Start(cx, st, m, d, tc, [SymJmp(Rel(skip))], tg);
    var r := Exe(cx, t, st, u, fuel);
    hide Rep, Reach, Kept, StmtCode, Exec, Exe;
    k := StmtSim(cx, t, u, gs, fuel, st, m, d, tg);
    if r.Done? && r.x == Normal {
      Proceed(cx, st, r.st, m, k, d, tc, [SymJmp(Rel(skip))], tg);
      hide CodeAt;
      var k1 := DoJump(cx, r.st, k, d, Rel(skip), tg);
      KeptChain(cx, m, k, k1);
      k := k1;
    } else {
      MatchesElsewhere(cx, r, u, gs, m, k, |tc|, |tc| + 1 + skip, d, tg);
    }
  }

  lemma IfElseUnfold(fr: Frame, c: Expr, t: Stmt, e: Stmt, u: Unwind, d: nat)
    requires StmtOk(If(c, t, Some(e)), Lens(fr), u.inDefer) && UnwindOk(u, Lens(fr))
    ensures var cc, tc, ec := ExprCode(fr, c, d), StmtCode(fr, t, u, d), StmtCode(fr, e, u, d);
      StmtCode(fr, If(c, t, Some(e)), u, d) == Branch(cc, Rel(|tc| + 1)) + (Skipping(tc, |ec|) + ec)
  {
    hide Branch, Skipping, ExprCode, ExprOk, Lens, UnwindOk;
  }

  lemma IfElseCode(cx: Cx, c: Expr, t: Stmt, e: Stmt, u: Unwind, pc: int, d: nat, tg: Targets)
    requires StmtOk(If(c, t, Some(e)), Lens(cx.fr), u.inDefer) && UnwindOk(u, Lens(cx.fr))
        && CodeAt(cx.c, pc, StmtCode(cx.fr, If(c, t, Some(e)), u, d), tg)
    ensures var cc, tc, ec := ExprCode(cx.fr, c, d), StmtCode(cx.fr, t, u, d), StmtCode(cx.fr, e, u, d);
      && CodeAt(cx.c, pc, Branch(cc, Rel(|tc| + 1)), tg)
      && CodeAt(cx.c, pc + |cc| + 2, Skipping(tc, |ec|), tg)
      && CodeAt(cx.c, pc + |cc| + 2 + |tc| + 1, ec, tg)
      && |StmtCode(cx.fr, If(c, t, Some(e)), u, d)| == |cc| + |tc| + |ec| + 3
  {
    hide CodeAt, StmtCode, ExprCode, Branch, Skipping, UnwindOk, Lens;
    var tc, ec := StmtCode(cx.fr, t, u, d), StmtCode(cx.fr, e, u, d);
    var head, mid := Branch(ExprCode(cx.fr, c, d), Rel(|tc| + 1)), Skipping(tc, |ec|);
    IfElseUnfold(cx.fr, c, t, e, u, d);
    CodeSplit(cx.c, pc, head, mid + ec, tg);
    CodeSplit(cx.c, pc + |head|, mid, ec, tg);
  }

  lemma IfElseMeaning(cx: Cx, c: Expr, t: Stmt, e: Stmt, u: Unwind, fuel: nat, st: State)
    requires StmtOk(If(c, t, Some(e)), Lens(cx.fr), u.inDefer) && Shaped(st, Lens(cx.fr))
    ensures var r := Meaning(cx, c, st);
      Exe(cx, If(c, t, Some(e)), st, u, fuel) ==
        if r.Stop? then Fault(r.f, r.trace) else if r.v != 0 then Exe(cx, t, r.st, u, fuel)
            else Exe(cx, e, r.st, u, fuel)
  {
    hide Eval;
  }

  lemma IfElseSim(cx: Cx, c: Expr, t: Stmt, e: Stmt, u: Unwind, gs: seq<nat>, fuel: nat, st: State, m: Mach, d: nat,
      tg: Targets) returns (k: Mach)
    requires StmtOk(If(c, t, Some(e)), Lens(cx.fr), u.inDefer) && Fuelled(cx, u, gs)
        && Ready(cx, st, m, d, StmtCode(cx.fr, If(c, t, Some(e)), u, d), tg)
    ensures Shaped(st, Lens(cx.fr))
        && Matches(cx, Exe(cx, If(c, t, Some(e)), st, u, fuel), u, gs, m, k,
        |StmtCode(cx.fr, If(c, t, Some(e)), u, d)|, d, tg)
    decreases Weight(u) + Size(If(c, t, Some(e))), fuel, 2
  {
    hide StmtCode, ExprCode, ExprOk, Shaped, Lens, CodeAt, CxOk, Rep, Kept, Reach, Exec, Eval, Exe, Meaning, Matches,
        Branch, Skipping;
    ReadyOk(cx, st, m, d, StmtCode(cx.fr, If(c, t, Some(e)), u, d), tg);
    IfElseCode(cx, c, t, e, u, m.pc, d, tg);
    IfElseMeaning(cx, c, t, e, u, fuel, st);
    var tc, ec := StmtCode(cx.fr, t, u, d), StmtCode(cx.fr, e, u, d);
    var n1, n2 := |ExprCode(cx.fr, c, d)| + 2, |tc| + 1;
    var r := Meaning(cx, c, st);
    hide Branch, Skipping, Matches, Fuelled, Rep, Reach, Kept, StmtCode, ExprCode, Exec, Eval, Exe, Meaning, ExprOk,
        CodeAt, CxOk;
    var k1 := BranchSim(cx, c, Rel(|tc| + 1), st, m, d, tg);
    match r
    case Stop(f, tr) =>
      k := k1;
      FaultAnywhere(cx, u, gs, m, k, n1 + n2 + |ec|, d, tg);
    case Val(v, st1) =>
      RepOk(cx, st1, k1, d);
      if v == 0 {
        k := StmtSim(cx, e, u, gs, fuel, st1, k1, d, tg);
        MatchesAfter(cx, Exe(cx, e, st1, u, fuel), u, gs, m, k1, k, n1 + n2, |ec|, d, tg);
      } else {
        k := ThenSim(cx, t, |ec|, u, gs, fuel, st1, k1, d, tg);
        MatchesAfter(cx, Exe(cx, t, st1, u, fuel), u, gs, m, k1, k, n1, n2 + |ec|, d, tg);
      }
  }

  lemma ReturnStmtSim(cx: Cx, e: Option<Expr>, u: Unwind, gs: seq<nat>, fuel: nat, st: State, m: Mach, d: nat,
      tg: Targets) returns (k: Mach)
    requires StmtOk(Return(e), Lens(cx.fr), u.inDefer) && Fuelled(cx, u, gs)
        && Ready(cx, st, m, d, StmtCode(cx.fr, Return(e), u, d), tg)
    ensures Shaped(st, Lens(cx.fr))
        && Matches(cx, Exe(cx, Return(e), st, u, fuel), u, gs, m, k, |StmtCode(cx.fr, Return(e), u, d)|, d, tg)
    decreases Weight(u) + Size(Return(e)), fuel, 2
  {
    var c1, c2 := OptCode(cx.fr, e, P(MovImm(RAX, 0)), d), LeaveCode(cx.fr, u.open, d);
    assert StmtCode(cx.fr, Return(e), u, d) == c1 + c2;
    ReadyOk(cx, st, m, d, c1 + c2, tg);
    Start(cx, st, m, d, c1, c2, tg);
    var r := MeaningOpt(cx, e, 0, st);
    assert Exe(cx, Return(e), st, u, fuel)
        == match r case Stop(f, tr) => Fault(f, tr) case Val(v, st1) => Done(Returned(v), st1);
    hide Rep, Reach, Kept, StmtCode, OptCode, LeaveCode, Exec, Eval, Exe, MeaningOpt, ExprOk;
    var k1 := ValueSim(cx, e, st, m, d, tg);
    match r
    case Stop(f, tr) => k := k1;
    case Val(v, st1) =>
      Proceed(cx, st, st1, m, k1, d, c1, c2, tg);
      k := ReturnSim(cx, v, u.open, gs, st1, k1, d, tg);
      LeftAfter(cx, v, Unwound(cx, u.open, gs, st1), m, k1, k, tg);
  }

  // ----- loops -----

  /** Resolving loop labels inside the code or through its targets is the same. */
  lemma CloseAt(c: seq<Instr>, pc: int, code: seq<Sym>, brk: int, cont: int, tg: Targets)
    requires CodeAt(c, pc, Close(code, brk, cont), tg)
    ensures CodeAt(c, pc, code, Targets(pc + brk, pc + cont, tg.pan))
  {
    var inner := Targets(pc + brk, pc + cont, tg.pan);
    forall i | 0 <= i < |code| ensures c[pc + i] == Fix(code[i], pc + i, inner) {
      assert c[pc + i] == Fix(Close(code, brk, cont)[i], pc + i, tg);
    }
  }

  /** The test at the top of a loop. */
  lemma HeadSim(cx: Cx, c: Option<Expr>, st: State, m: Mach, d: nat, tg: Targets) returns (k: Mach)
    requires OptOk(c, Lens(cx.fr)) && Ready(cx, st, m, d, HeadCode(cx.fr, c, d), tg)
    ensures Shaped(st, Lens(cx.fr)) && Reach(cx, m, k)
    ensures match MeaningOpt(cx, c, 1, st)
            case Stop(f, tr) => Faulted(f, tr, k, tg)
            case Val(v, st1) => Rep(cx, st1, k, d) && Quietly(cx, m, k) && k.pc == if v == 0 then tg.brk
                else m.pc + |HeadCode(cx.fr, c, d)|
  {
    hide CodeAt, Rep, ExprCode, Eval, ExprOk, Branch;
    ReadyOk(cx, st, m, d, HeadCode(cx.fr, c, d), tg);
    if c.None? {
      k := m;
      ReachSelf(cx, m);
      KeptSame(cx, m, m);
    } else {
      hide Rep, Reach, Kept, ExprCode, Eval, ExprOk;
      k := BranchSim(cx, c.value, ToBreak, st, m, d, tg);
    }
  }

  /** The step and the jump back to the top. */
  lemma NextSim(cx: Cx, step: Option<Expr>, n: int, st: State, m: Mach, d: nat, tg: Targets) returns (k: Mach)
    requires OptOk(step, Lens(cx.fr)) && Ready(cx, st, m, d, OptCode(cx.fr, step, [], d) + [SymJmp(Rel(-n))], tg)
    ensures Shaped(st, Lens(cx.fr)) && Reach(cx, m, k)
    ensures match MeaningOpt(cx, step, 0, st)
            case Stop(f, tr) => Faulted(f, tr, k, tg)
            case Val(_, st1) =>
              Rep(cx, st1, k, d) && Quietly(cx, m, k) && k.pc == m.pc + |OptCode(cx.fr, step, [], d)| + 1 - n
  {
    var c := OptCode(cx.fr, step, [], d);
    ReadyOk(cx, st, m, d, c + [SymJmp(Rel(-n))], tg);
    Start(cx, st, m, d, c, [SymJmp(Rel(-n))], tg);
    hide Rep, Reach, Kept, OptCode, ExprOk, MeaningOpt;
    k := EffectSim(cx, step, 0, st, m, d, tg);
    match MeaningOpt(cx, step, 0, st)
    case Stop(f, tr) =>
    case Val(_, st1) =>
      Proceed(cx, st, st1, m, k, d, c, [SymJmp(Rel(-n))], tg);
      hide CodeAt;
      var k1 := DoJump(cx, st1, k, d, Rel(-n), tg);
      KeptChain(cx, m, k, k1);
      RepOk(cx, st1, k1, d);
      k := k1;
  }

  /** The loop before its labels are resolved. */
  function Cycle(fr: Frame, c: Option<Expr>, step: Option<Expr>, b: Stmt, u: Unwind, d: nat): seq<Sym>
    requires OptOk(c, Lens(fr)) && OptOk(step, Lens(fr)) && StmtOk(b, Lens(fr), u.inDefer) && UnwindOk(u, Lens(fr))
  {
    OpenLoop(HeadCode(fr, c, d), StmtCode(fr, b, EnterLoop(u), d), OptCode(fr, step, [], d))
  }

  /** Targets of a loop whose code starts at pc. */
  function LoopTargets(fr: Frame, c: Option<Expr>, step: Option<Expr>, b: Stmt, u: Unwind, d: nat, pc: int,
      pan: int): Targets
    requires OptOk(c, Lens(fr)) && OptOk(step, Lens(fr)) && StmtOk(b, Lens(fr), u.inDefer) && UnwindOk(u, Lens(fr))
  {
    Targets(pc + |Cycle(fr, c, step, b, u, d)|, pc + |HeadCode(fr, c, d)| + |StmtCode(fr, b, EnterLoop(u), d)|, pan)
  }

  lemma InsideLoop(cx: Cx, u: Unwind, gs: seq<nat>, st: State)
    requires Fuelled(cx, u, gs) && Shaped(st, Lens(cx.fr))
    ensures Fuelled(cx, EnterLoop(u), gs) && EnterLoop(u).inDefer == u.inDefer && EnterLoop(u).open == u.open
    ensures Unwound(cx, Inner(EnterLoop(u)), InnerFuel(EnterLoop(u), gs), st) == Done(Normal, st)
  {}

  /** What one round of a loop does after its test. */
  lemma LoopMeaning(cx: Cx, c: Option<Expr>, step: Option<Expr>, b: Stmt, u: Unwind, fuel: nat, st: State)
    requires OptOk(c, Lens(cx.fr)) && OptOk(step, Lens(cx.fr)) && StmtOk(b, Lens(cx.fr), u.inDefer)
        && Shaped(st, Lens(cx.fr)) && fuel > 0
    ensures ExeLoop(cx, c, step, b, st, u, fuel) ==
            match MeaningOpt(cx, c, 1, st)
            case Stop(f, tr) => Fault(f, tr)
            case Val(v, st1) => if v == 0 then Done(Normal, st1)
                else AfterBody(cx, c, step, b, u, fuel - 1, Exe(cx, b, st1, EnterLoop(u), fuel - 1))
  {
    hide Eval, Exec, ExprOk;
  }

  function AfterBody(cx: Cx, c: Option<Expr>, step: Option<Expr>, b: Stmt, u: Unwind, fuel: nat,
      r: Outcome): (q: Outcome)
    requires OptOk(c, Lens(cx.fr)) && OptOk(step, Lens(cx.fr)) && StmtOk(b, Lens(cx.fr), u.inDefer)
        && (r.Done? ==> Shaped(r.st, Lens(cx.fr)))
    ensures q.Done? ==> Shaped(q.st, Lens(cx.fr))
  {
    match r
    case Done(Broke, st) => Done(Normal, st)
    case Done(Returned(w), st) => Done(Returned(w), st)
    case Done(_, st) => (
      match MeaningOpt(cx, step, 0, st)
      case Stop(f, tr) => Fault(f, tr)
      case Val(_, st1) => ExeLoop(cx, c, step, b, st1, u, fuel))
    case other => other
  }

  lemma NoFuel(cx: Cx, c: Option<Expr>, step: Option<Expr>, b: Stmt, u: Unwind, st: State)
    requires OptOk(c, Lens(cx.fr)) && OptOk(step, Lens(cx.fr)) && StmtOk(b, Lens(cx.fr), u.inDefer)
        && Shaped(st, Lens(cx.fr))
    ensures ExeLoop(cx, c, step, b, st, u, 0) == Timeout
  {}

  /** The loop from its top, its labels resolved. */
  lemma LoopSim(cx: Cx, c: Option<Expr>, step: Option<Expr>, b: Stmt, u: Unwind, gs: seq<nat>, fuel: nat, st: State,
      m: Mach, d: nat, tg: Targets, tg': Targets) returns (k: Mach)
    requires OptOk(c, Lens(cx.fr)) && OptOk(step, Lens(cx.fr))
    requires StmtOk(b, Lens(cx.fr), u.inDefer) && Fuelled(cx, u, gs)
    requires tg == LoopTargets(cx.fr, c, step, b, u, d, m.pc, tg'.pan)
        && Ready(cx, st, m, d, Cycle(cx.fr, c, step, b, u, d), tg)
    ensures Shaped(st, Lens(cx.fr))
    ensures Matches(cx, ExeLoop(cx, c, step, b, st, u, fuel), u, gs, m, k, |Cycle(cx.fr, c, step, b, u, d)|, d, tg')
    decreases Weight(u) + Size(b) + 1, fuel, 1
  {
    hide CodeAt, CxOk, Rep, Kept, StmtCode, OptCode, ExeLoop, OptOk, StmtOk, HeadCode, Exec;
    var code := Cycle(cx.fr, c, step, b, u, d);
    ReadyOk(cx, st, m, d, code, tg);
    if fuel == 0 {
      k := m;
      ReachSelf(cx, m);
      NoFuel(cx, c, step, b, u, st);
    } else {
      LoopMeaning(cx, c, step, b, u, fuel, st);
      var head, rest := HeadCode(cx.fr, c, d), code[|HeadCode(cx.fr, c, d)|..];
      assert code == head + rest;
      Start(cx, st, m, d, head, rest, tg);
      hide Rep, Reach, Kept, StmtCode, OptCode, ExeLoop, Exe, MeaningOpt, OptOk, StmtOk, HeadCode, CodeAt, AfterBody;
      var k1 := HeadSim(cx, c, st, m, d, tg);
      match MeaningOpt(cx, c, 1, st)
      case Stop(f, tr) => k := k1;
      case Val(v, st1) =>
        if v == 0 {
          k := k1;
        } else {
          Proceed(cx, st, st1, m, k1, d, head, rest, tg);
          k := RoundSim(cx, c, step, b, u, gs, fuel - 1, st1, m, k1, d, tg, tg');
        }
    }
  }

  /** The body and what follows it, up to the loop's end. */
  lemma RoundSim(cx: Cx, c: Option<Expr>, step: Option<Expr>, b: Stmt, u: Unwind, gs: seq<nat>, fuel: nat, st: State,
      m0: Mach, m: Mach, d: nat, tg: Targets, tg': Targets) returns (k: Mach)
    requires OptOk(c, Lens(cx.fr)) && OptOk(step, Lens(cx.fr))
    requires StmtOk(b, Lens(cx.fr), u.inDefer) && Fuelled(cx, u, gs)
    requires tg == LoopTargets(cx.fr, c, step, b, u, d, m0.pc, tg'.pan)
        && CodeAt(cx.c, m0.pc, Cycle(cx.fr, c, step, b, u, d), tg)
    requires Quietly(cx, m0, m) && m.pc == m0.pc + |HeadCode(cx.fr, c, d)| && CxOk(cx) && Rep(cx, st, m, d)
    ensures Shaped(st, Lens(cx.fr))
    ensures var r := AfterBody(cx, c, step, b, u, fuel, Exe(cx, b, st, EnterLoop(u), fuel));
      (r.Done? ==> Shaped(r.st, Lens(cx.fr))) && Matches(cx, r, u, gs, m0, k, |Cycle(cx.fr, c, step, b, u, d)|, d, tg')
    decreases Weight(u) + Size(b) + 1, fuel + 1, 0
  {
    hide CodeAt, CxOk, Rep, Reach, Kept, StmtCode, OptCode, ExeLoop, OptOk, StmtOk, HeadCode, Exec, Loop, Unwound;
    RepOk(cx, st, m, d);
    var head, body, next := HeadCode(cx.fr, c, d), StmtCode(cx.fr, b, EnterLoop(u), d), OptCode(cx.fr, step, [], d);
    var tail := next + [SymJmp(Rel(-(|head| + |body| + |next| + 1)))];
    var r := Exe(cx, b, st, EnterLoop(u), fuel);
    InsideLoop(cx, u, gs, if r.Done? then r.st else st);
    hide Rep, Reach, Kept, StmtCode, OptCode, ExeLoop, Exe, MeaningOpt, OptOk, StmtOk, HeadCode, CodeAt, CxOk, Unwound;
    CodeSplit(cx.c, m0.pc, head, body + tail, tg);
    CodeSplit(cx.c, m.pc, body, tail, tg);
    k := StmtSim(cx, b, EnterLoop(u), gs, fuel, st, m, d, tg);
    if r.Done? && (r.x == Normal || r.x == Continued) {
      RepOk(cx, r.st, k, d);
      QuietBoth(cx, m0, m, k);
      hide Quietly, Matches;
      k := AgainSim(cx, c, step, b, u, gs, fuel, r.st, m0, k, d, tg, tg');
      FaultAnywhere(cx, u, gs, m0, k, |head + (body + tail)|, d, tg');
    } else {
      hide Quietly, Lens, UnwindOk;
      LeaveBody(cx, r, u, gs, m0, m, k, |head + (body + tail)|, |body|, d, tg, tg');
    }
  }

  lemma FaultAnywhere(cx: Cx, u: Unwind, gs: seq<nat>, m: Mach, k: Mach, n: nat, d: nat, tg: Targets)
    requires Fuelled(cx, u, gs) && Reach(cx, m, k)
    ensures forall f, tr :: Faulted(f, tr, k, tg) ==> Matches(cx, Fault(f, tr), u, gs, m, k, n, d, tg)
  {
    hide Faulted, Reach;
  }

  /** Leaving the loop from its body. */
  lemma LeaveBody(cx: Cx, r: Outcome, u: Unwind, gs: seq<nat>, m0: Mach, m: Mach, k: Mach, n: nat, n': nat, d: nat,
      tg: Targets, tg': Targets)
    requires Fuelled(cx, u, gs) && Fuelled(cx, EnterLoop(u), gs) && !(r.Done? && (r.x == Normal || r.x == Continued))
        && (r.Done? ==> Shaped(r.st, Lens(cx.fr)))
    requires r.Done? ==>
      Unwound(cx, Inner(EnterLoop(u)), InnerFuel(EnterLoop(u), gs), r.st) == Done(Normal, r.st)
    requires Matches(cx, r, EnterLoop(u), gs, m, k, n', d, tg) && Quietly(cx, m0, m) && tg.brk == m0.pc + n
        && tg.pan == tg'.pan
    ensures Matches(cx, if r.Done? && r.x == Broke then Done(Normal, r.st) else r, u, gs, m0, k, n, d, tg')
  {
    hide Rep, Reach, Kept, Unwound, Quietly, Gone;
    match r
    case Done(Broke, st1) => AfterQuiet(cx, Done(Normal, st1), m0, m, k, tg.brk, d, tg);
    case Done(Returned(v), st1) => LeftAfter(cx, v, Unwound(cx, u.open, gs, st1), m0, m, k, tg);
    case _ => AfterQuiet(cx, r, m0, m, k, m.pc + n', d, tg);
  }

  /** The step, the jump back, and the rest of the run. */
  lemma AgainSim(cx: Cx, c: Option<Expr>, step: Option<Expr>, b: Stmt, u: Unwind, gs: seq<nat>, fuel: nat, st: State,
      m0: Mach, m: Mach, d: nat, tg: Targets, tg': Targets) returns (k: Mach)
    requires OptOk(c, Lens(cx.fr)) && OptOk(step, Lens(cx.fr))
    requires StmtOk(b, Lens(cx.fr), u.inDefer) && Fuelled(cx, u, gs)
    requires tg == LoopTargets(cx.fr, c, step, b, u, d, m0.pc, tg'.pan)
        && CodeAt(cx.c, m0.pc, Cycle(cx.fr, c, step, b, u, d), tg)
    requires Quietly(cx, m0, m) && m.pc == tg.cont && CxOk(cx) && Rep(cx, st, m, d)
    ensures Shaped(st, Lens(cx.fr))
    ensures var n := MeaningOpt(cx, step, 0, st);
      if n.Stop? then Reach(cx, m0, k) && Faulted(n.f, n.trace, k, tg')
      else Matches(cx, ExeLoop(cx, c, step, b, n.st, u, fuel), u, gs, m0, k, |Cycle(cx.fr, c, step, b, u, d)|, d, tg')
    decreases Weight(u) + Size(b) + 1, fuel, 2
  {
    hide CodeAt, CxOk, Rep, Reach, Kept, StmtCode, OptCode, ExeLoop, OptOk, StmtOk, HeadCode, Exec, Loop;
    RepOk(cx, st, m, d);
    var head, body, next := HeadCode(cx.fr, c, d), StmtCode(cx.fr, b, EnterLoop(u), d), OptCode(cx.fr, step, [], d);
    var n := |head| + |body| + |next| + 1;
    var back := next + [SymJmp(Rel(-n))];
    hide Rep, Reach, Kept, StmtCode, OptCode, ExeLoop, MeaningOpt, OptOk, StmtOk, HeadCode, CodeAt, CxOk;
    CodeSplit(cx.c, m0.pc, head, body + back, tg);
    CodeSplit(cx.c, m0.pc + |head|, body, back, tg);
    hide OpenLoop, Fuelled, Lens;
    var k1 := NextSim(cx, step, n, st, m, d, tg);
    match MeaningOpt(cx, step, 0, st)
    case Stop(f, tr) =>
      k := k1;
      ReachTrans(cx, m0, m, k);
    case Val(_, st1) =>
      RepOk(cx, st1, k1, d);
      QuietBoth(cx, m0, m, k1);
      k := LoopSim(cx, c, step, b, u, gs, fuel, st1, k1, d, tg, tg');
      MatchesAfter(cx, ExeLoop(cx, c, step, b, st1, u, fuel), u, gs, m0, k1, k, 0, |Cycle(cx.fr, c, step, b, u, d)|,
          d, tg');
  }

  /** The whole `for`, from the code with its labels closed. */
  lemma ClosedLoopSim(cx: Cx, c: Option<Expr>, step: Option<Expr>, b: Stmt, u: Unwind, gs: seq<nat>, fuel: nat,
      st: State, m: Mach, d: nat, tg: Targets) returns (k: Mach)
    requires OptOk(c, Lens(cx.fr)) && OptOk(step, Lens(cx.fr))
    requires StmtOk(b, Lens(cx.fr), u.inDefer) && Fuelled(cx, u, gs)
    requires Ready(cx, st, m, d, LoopCode(HeadCode(cx.fr, c, d), StmtCode(cx.fr, b, EnterLoop(u), d),
        OptCode(cx.fr, step, [], d)), tg)
    ensures Shaped(st, Lens(cx.fr))
    ensures Matches(cx, ExeLoop(cx, c, step, b, st, u, fuel), u, gs, m, k,
                    |LoopCode(HeadCode(cx.fr, c, d), StmtCode(cx.fr, b, EnterLoop(u), d),
                        OptCode(cx.fr, step, [], d))|, d, tg)
    decreases Weight(u) + Size(b) + 1, fuel, 2
  {
    hide CodeAt, CxOk, Rep, Kept, Reach, StmtCode, OptCode, ExeLoop, OptOk, StmtOk, HeadCode, Exec;
    var head, body, next := HeadCode(cx.fr, c, d), StmtCode(cx.fr, b, EnterLoop(u), d), OptCode(cx.fr, step, [], d);
    hide Rep, Reach, Kept, StmtCode, OptCode, ExeLoop, OptOk, StmtOk, HeadCode, CodeAt, CxOk, Close, Lens, UnwindOk,
        OpenLoop, Shaped, Fuelled, Matches;
    CloseAt(cx.c, m.pc, Cycle(cx.fr, c, step, b, u, d), |head| + |body| + |next| + 1, |head| + |body|, tg);
    k := LoopSim(cx, c, step, b, u, gs, fuel, st, m, d, LoopTargets(cx.fr, c, step, b, u, d, m.pc, tg.pan), tg);
  }

  lemma ForSim(cx: Cx, s: Stmt, u: Unwind, gs: seq<nat>, fuel: nat, st: State, m: Mach, d: nat,
      tg: Targets) returns (k: Mach)
    requires s.For? && StmtOk(s, Lens(cx.fr), u.inDefer) && Fuelled(cx, u, gs)
        && Ready(cx, st, m, d, StmtCode(cx.fr, s, u, d), tg)
    ensures Shaped(st, Lens(cx.fr))
        && Matches(cx, Exe(cx, s, st, u, fuel), u, gs, m, k, |StmtCode(cx.fr, s, u, d)|, d, tg)
    decreases Weight(u) + Size(s), fuel, 3
  {
    var For(i, c, step, b) := s;
    var code := LoopCode(HeadCode(cx.fr, c, d), StmtCode(cx.fr, b, EnterLoop(u), d), OptCode(cx.fr, step, [], d));
    ReadyOk(cx, st, m, d, StmtCode(cx.fr, s, u, d), tg);
    if i.None? {
      assert StmtCode(cx.fr, s, u, d) == code;
      assert Exe(cx, s, st, u, fuel) == ExeLoop(cx, c, step, b, st, u, fuel);
      hide Matches, Ready, StmtCode, Exe, ExeLoop;
      k := ClosedLoopSim(cx, c, step, b, u, gs, fuel, st, m, d, tg);
    } else {
      var init := StmtCode(cx.fr, i.value, u, d);
      assert StmtCode(cx.fr, s, u, d) == init + code;
      var r := Exe(cx, i.value, st, u, fuel);
      assert Exe(cx, s, st, u, fuel) == if r.Done? && r.x == Normal then ExeLoop(cx, c, step, b, r.st, u, fuel) else r;
      Start(cx, st, m, d, init, code, tg);
      hide Ready, Rep, Reach, Kept, StmtCode, HeadCode, OptCode, LoopCode, Exe, ExeLoop, OptOk, StmtOk;
      k := StmtSim(cx, i.value, u, gs, fuel, st, m, d, tg);
      if r.Done? && r.x == Normal {
        Proceed(cx, st, r.st, m, k, d, init, code, tg);
        var k1 := k;
        k := ClosedLoopSim(cx, c, step, b, u, gs, fuel, r.st, k1, d, tg);
        MatchesAfter(cx, ExeLoop(cx, c, step, b, r.st, u, fuel), u, gs, m, k1, k, |init|, |code|, d, tg);
      } else {
        MatchesElsewhere(cx, r, u, gs, m, k, |init|, |init + code|, d, tg);
      }
    }
  }

  /** Statements: the code goes where the run goes, in the state the run ends in, after the defers
      that a jump or return has to run. */
  lemma StmtSim(cx: Cx, s: Stmt, u: Unwind, gs: seq<nat>, fuel: nat, st: State, m: Mach, d: nat,
      tg: Targets) returns (k: Mach)
    requires StmtOk(s, Lens(cx.fr), u.inDefer) && Fuelled(cx, u, gs)
    requires Ready(cx, st, m, d, StmtCode(cx.fr, s, u, d), tg)
    ensures Shaped(st, Lens(cx.fr))
        && Matches(cx, Exe(cx, s, st, u, fuel), u, gs, m, k, |StmtCode(cx.fr, s, u, d)|, d, tg)
    decreases Weight(u) + Size(s), fuel, 4
  {
    hide Matches, Ready, Exec, Fuelled;
    match s
    case Block(b) => k := BlockSim(cx, b, u, gs, fuel, st, m, d, tg);
    case Expression(e) => k := ExpressionSim(cx, e, u, gs, fuel, st, m, d, tg);
    case Return(e) => k := ReturnStmtSim(cx, e, u, gs, fuel, st, m, d, tg);
    case If(c, t, None) => k := IfSim(cx, c, t, u, gs, fuel, st, m, d, tg);
    case If(c, t, Some(e)) => k := IfElseSim(cx, c, t, e, u, gs, fuel, st, m, d, tg);
    case For(_, _, _, _) => k := ForSim(cx, s, u, gs, fuel, st, m, d, tg);
    case Break => k := BreakSim(cx, s, u, gs, fuel, st, m, d, tg);
    case Continue => k := BreakSim(cx, s, u, gs, fuel, st, m, d, tg);
  }

  lemma BreakSim(cx: Cx, s: Stmt, u: Unwind, gs: seq<nat>, fuel: nat, st: State, m: Mach, d: nat,
      tg: Targets) returns (k: Mach)
    requires (s == Break || s == Continue) && StmtOk(s, Lens(cx.fr), u.inDefer) && Fuelled(cx, u, gs)
        && Ready(cx, st, m, d, StmtCode(cx.fr, s, u, d), tg)
    ensures Shaped(st, Lens(cx.fr))
        && Matches(cx, Exe(cx, s, st, u, fuel), u, gs, m, k, |StmtCode(cx.fr, s, u, d)|, d, tg)
    decreases Weight(u) + Size(s), fuel, 3
  {
    hide Ready;
    k := JumpSim(cx, u, gs, if s == Break then ToBreak else ToContinue, st, m, d, tg);
  }
}
