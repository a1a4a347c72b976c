/** The registers that a function must keep for its caller: no emitted instruction writes RBX or R12
    to R15, and RSP and RBP come back by `leave; ret`. */
module Registers {
  import opened Common
  import opened Source
  import opened Machine
  import opened Lowering
  import opened Simulation
  import opened Bits

  /** RBX and R12 to R15 (System V AMD64 ABI section 3.2.1). */
  predicate Preserved(r: int) { r == RBX || 12 <= r < 16 }

  predicate Spares(i: Instr) {
    match i
    case XorZero(r) => !Preserved(r)
    case MovU32(r, _) => !Preserved(r)
    case MovS32(r, _) => !Preserved(r)
    case MovAbs(r, _) => !Preserved(r)
    case MovReg(r, _) => !Preserved(r)
    case Pop(r) => !Preserved(r)
    case LeaLocal(r, _) => !Preserved(r)
    case LdLocal(r, _) => !Preserved(r)
    case _ => true
  }

  predicate SparingCode(c: seq<Instr>) { forall i :: 0 <= i < |c| ==> Spares(c[i]) }

  ghost predicate SameSaved(m: Mach, k: Mach) {
    Ok(m) && Ok(k) && forall r: Reg :: Preserved(r) ==> k.regs[r] == m.regs[r]
  }

  lemma StepSpares(env: Env, i: Instr, m: Mach)
    requires Ok(m) && Spares(i)
    ensures SameSaved(m, Step(env, i, m))
  {
    hide Act, AfterCall;
    if !i.CallFn? {
      ActSpares(i, m);
    } else if i.nargs <= 6 {
      var a := env.world(i.name, CallArgs(m, i.nargs), m.trace);
      if a.Returns? { CallSpares(env.junk(i.name, i.nargs, m), a.v, a.trace, m); }
    }
  }

  lemma ActSpares(i: Instr, m: Mach)
    requires Ok(m) && !i.CallFn? && Spares(i)
    ensures SameSaved(m, Act(i, m))
  {
    hide Act, Spares;
    forall r: Reg | Preserved(r) ensures Act(i, m).regs[r] == m.regs[r] { ActSparesOne(i, m, r); }
  }

  /** Instructions whose target is in the instruction. */
  predicate Targeted(i: Instr) {
    i.XorZero? || i.MovU32? || i.MovS32? || i.MovAbs? || i.MovReg? || i.Pop? || i.LeaLocal? || i.LdLocal?
  }

  /** Instructions that leave an arithmetic result in RAX. */
  predicate Arithmetic(i: Instr) { Additive(i) || Bitwise(i) || Multiplicative(i) }

  predicate Additive(i: Instr) { i.AddRdi? || i.SubRdi? || i.NegRax? }

  predicate Bitwise(i: Instr) { i.AndRdi? || i.OrRdi? || i.XorRdi? }

  predicate Multiplicative(i: Instr) { i.ImulRdi? || i.ImulRcx? || i.ShlCl? || i.SarCl? }

  lemma ArithmeticRegs(i: Instr, m: Mach)
    requires Ok(m) && Arithmetic(i)
    ensures Act(i, m).status == m.status && Act(i, m).regs == m.regs[RAX := Act(i, m).regs[RAX]]
  {
    hide Act;
    if Additive(i) {
      AdditiveRegs(i, m);
    } else if Bitwise(i) {
      BitwiseRegs(i, m);
    } else {
      MultiplicativeRegs(i, m);
    }
  }

  lemma AdditiveRegs(i: Instr, m: Mach)
    requires Ok(m) && Additive(i)
    ensures Act(i, m).status == m.status && Act(i, m).regs == m.regs[RAX := Act(i, m).regs[RAX]]
  {
    hide Wrap;
  }

  lemma BitwiseRegs(i: Instr, m: Mach)
    requires Ok(m) && Bitwise(i)
    ensures Act(i, m).status == m.status && Act(i, m).regs == m.regs[RAX := Act(i, m).regs[RAX]]
  {
    hide Wrap, And, Or, Xor, Unsigned;
  }

  lemma MultiplicativeRegs(i: Instr, m: Mach)
    requires Ok(m) && Multiplicative(i)
    ensures Act(i, m).status == m.status && Act(i, m).regs == m.regs[RAX := Act(i, m).regs[RAX]]
  {
    hide Wrap, Pow2;
  }

  lemma ActSparesOne(i: Instr, m: Mach, r: Reg)
    requires Ok(m) && !i.CallFn? && Spares(i) && Preserved(r)
    ensures Act(i, m).regs[r] == m.regs[r]
  {
    hide Act;
    if Targeted(i) {
      TargetedSpares(i, m, r);
    } else if Arithmetic(i) {
      ArithmeticRegs(i, m);
    } else {
      OthersSpare(i, m, r);
    }
  }

  lemma TargetedSpares(i: Instr, m: Mach, r: Reg)
    requires Ok(m) && Targeted(i) && Spares(i) && Preserved(r)
    ensures Act(i, m).regs[r] == m.regs[r]
  {
    hide SetReg, Wrap, SignExtend32, Get;
  }

  lemma OthersSpare(i: Instr, m: Mach, r: Reg)
    requires Ok(m) && !i.CallFn? && !Targeted(i) && !Arithmetic(i) && Preserved(r)
    ensures Act(i, m).regs[r] == m.regs[r]
  {
    hide SetReg, SetAlu, StoreWord, Wrap, TruncDiv, Unsigned, ZeroWords, Machine.Holds, Get;
  }

  lemma CallSpares(j: Junk, v: int, t: Trace, m: Mach)
    requires Ok(m)
    ensures SameSaved(m, AfterCall(j, v, t, m))
  {
    hide AfterCall;
    forall r: Reg | Preserved(r) ensures AfterCall(j, v, t, m).regs[r] == m.regs[r] { AfterReg(j, v, t, m, r); }
  }

  lemma {:induction false} RunSpares(env: Env, c: seq<Instr>, m: Mach, n: nat)
    requires Ok(m) && SparingCode(c)
    ensures SameSaved(m, Run(env, c, m, n))
    decreases n
  {
    hide Step;
    if n > 0 && m.status == Running && 0 <= m.pc < |c| {
      StepSpares(env, c[m.pc], m);
      RunSpares(env, c, Step(env, c[m.pc], m), n - 1);
    }
  }

  lemma ReachSpares(cx: Cx, m: Mach, k: Mach)
    requires Reach(cx, m, k) && SparingCode(cx.c)
    ensures SameSaved(m, k)
  {
    var n :| Run(cx.env, cx.c, m, n) == k;
    RunSpares(cx.env, cx.c, m, n);
  }

  // ----- the emitted code -----

  predicate SparesSym(s: Sym) { s.Plain? ==> Spares(s.i) }

  predicate Sparing(c: seq<Sym>) { forall i :: 0 <= i < |c| ==> SparesSym(c[i]) }

  predicate ClosedSym(s: Sym) { LabelOf(s) != ToBreak && LabelOf(s) != ToContinue }

  /** No jump waits for a loop. */
  ghost predicate Closed(c: seq<Sym>) { forall i :: 0 <= i < |c| ==> ClosedSym(c[i]) }

  /** Both, as the code of every expression is. */
  predicate Tidy(c: seq<Sym>) { forall i :: 0 <= i < |c| ==> SparesSym(c[i]) && ClosedSym(c[i]) }

  lemma TidyBoth(c: seq<Sym>)
    requires Tidy(c)
    ensures Sparing(c) && Closed(c)
  {}

  lemma Two(a: seq<Sym>, b: seq<Sym>)
    requires Tidy(a) && Tidy(b)
    ensures Tidy(a + b)
  {}

  lemma Three(a: seq<Sym>, b: seq<Sym>, c: seq<Sym>)
    requires Tidy(a) && Tidy(b) && Tidy(c)
    ensures Tidy(a + b + c)
  {}

  lemma Five(a: seq<Sym>, b: seq<Sym>, c: seq<Sym>, d: seq<Sym>, e: seq<Sym>)
    requires Tidy(a) && Tidy(b) && Tidy(c) && Tidy(d) && Tidy(e)
    ensures Tidy(a + b + c + d + e)
  {
    hide Tidy;
    Three(a, b, c);
    Three(a + b + c, d, e);
  }

  lemma One(i: Instr)
    requires Spares(i)
    ensures Tidy(P(i))
  {}

  lemma BinTidy(op: BinOp)
    ensures Tidy(BinCode(op))
  {}

  lemma {:induction false} PopsTidy(n: nat)
    requires n <= 6
    ensures Tidy(PopArgs(n))
    decreases n
  {
    if n > 0 { PopsTidy(n - 1); }
  }

  lemma CallTidy(name: string, n: nat, d: nat)
    ensures Tidy(CallCode(name, n, d))
  {}

  lemma IndexTidy(fr: Frame, x: nat)
    requires x < |fr|
    ensures Tidy(IndexCode(fr, x))
  {}

  lemma CircuitTidy(a: seq<Sym>, b: seq<Sym>, cc: Cc, both: I64, decided: I64)
    requires Tidy(a) && Tidy(b)
    ensures Tidy(ShortCircuit(a, b, cc, both, decided))
  {
    hide Tidy;
    var t1 := P(TestRax) + [SymJcc(cc, Rel(|b| + 4))];
    var t2 := P(TestRax) + [SymJcc(cc, Rel(2))] + P(MovImm(RAX, both)) + [SymJmp(Rel(1))] + P(MovImm(RAX, decided));
    CircuitEnds(|b|, cc, both, decided);
    Two(a, t1);
    Two(a + t1, b);
    Two(a + t1 + b, t2);
    assert ShortCircuit(a, b, cc, both, decided) == a + t1 + b + t2;
  }

  lemma CircuitEnds(n: nat, cc: Cc, both: I64, decided: I64)
    ensures Tidy(P(TestRax) + [SymJcc(cc, Rel(n + 4))])
    ensures Tidy(P(TestRax) + [SymJcc(cc, Rel(2))] + P(MovImm(RAX, both)) + [SymJmp(Rel(1))] + P(MovImm(RAX, decided)))
  {}

  lemma PlaceTidy(fr: Frame, p: Place, d: nat)
    requires PlaceOk(p, Lens(fr))
    ensures Tidy(PlaceCode(fr, p, d))
    decreases p, 1
  {
    hide Tidy, IndexCode, P, Lens;
    match p
    case Local(x) => One(LeaLocal(RAX, fr[x].off));
    case Element(x, i) =>
      ExprTidy(fr, i, d + 1);
      IndexTidy(fr, x);
      One(LeaLocal(RAX, fr[x].off));
      One(Push(RAX));
      Three(P(LeaLocal(RAX, fr[x].off)), P(Push(RAX)), ExprCode(fr, i, d + 1));
      Two(P(LeaLocal(RAX, fr[x].off)) + P(Push(RAX)) + ExprCode(fr, i, d + 1), IndexCode(fr, x));
  }

  lemma ExprTidy(fr: Frame, e: Expr, d: nat)
    requires ExprOk(e, Lens(fr))
    ensures Tidy(ExprCode(fr, e, d))
    decreases e, 2
  {
    match e
    case Load(_) => StoringTidy(fr, e, d);
    case Assign(_, _) => StoringTidy(fr, e, d);
    case OpAssign(op, p, a) => OpAssignTidy(fr, op, p, a, d);
    case Comma(_, _) => TwoTidy(fr, e, d);
    case Bin(_, _, _) => TwoTidy(fr, e, d);
    case AndAlso(_, _) => TwoTidy(fr, e, d);
    case OrElse(_, _) => TwoTidy(fr, e, d);
    case _ => OtherTidy(fr, e, d);
  }

  lemma StoringTidy(fr: Frame, e: Expr, d: nat)
    requires ExprOk(e, Lens(fr)) && (e.Load? || e.Assign?)
    ensures Tidy(ExprCode(fr, e, d))
    decreases e, 1
  {
    hide Tidy, P, Lens, PlaceCode;
    PlaceTidy(fr, e.p, d);
    match e
    case Load(p) =>
      One(LoadRax);
      Two(PlaceCode(fr, p, d), P(LoadRax));
    case Assign(p, a) =>
      ExprTidy(fr, a, d + 1);
      One(Push(RAX));
      One(Pop(RDI));
      One(StoreRdi);
      Five(PlaceCode(fr, p, d), P(Push(RAX)), ExprCode(fr, a, d + 1), P(Pop(RDI)), P(StoreRdi));
  }

  lemma OpAssignTidy(fr: Frame, op: BinOp, p: Place, a: Expr, d: nat)
    requires ExprOk(OpAssign(op, p, a), Lens(fr))
    ensures Tidy(ExprCode(fr, OpAssign(op, p, a), d))
    decreases OpAssign(op, p, a), 1
  {
    hide Tidy, P, Lens, PlaceCode, BinCode;
    PlaceTidy(fr, p, d);
    ExprTidy(fr, a, d + 2);
    BinTidy(op);
    One(Push(RAX));
    One(LoadRax);
    One(MovReg(RDI, RAX));
    One(Pop(RAX));
    One(Pop(RDI));
    One(StoreRdi);
    var c1 := PlaceCode(fr, p, d) + P(Push(RAX)) + P(LoadRax) + P(Push(RAX)) + ExprCode(fr, a, d + 2);
    Five(PlaceCode(fr, p, d), P(Push(RAX)), P(LoadRax), P(Push(RAX)), ExprCode(fr, a, d + 2));
    Five(c1, P(MovReg(RDI, RAX)), P(Pop(RAX)), BinCode(op), P(Pop(RDI)));
    Two(c1 + P(MovReg(RDI, RAX)) + P(Pop(RAX)) + BinCode(op) + P(Pop(RDI)), P(StoreRdi));
  }

  lemma TwoTidy(fr: Frame, e: Expr, d: nat)
    requires ExprOk(e, Lens(fr)) && (e.Comma? || e.Bin? || e.AndAlso? || e.OrElse?)
    ensures Tidy(ExprCode(fr, e, d))
    decreases e, 1
  {
    hide Tidy, P, Lens, BinCode, ShortCircuit;
    ExprTidy(fr, e.b, d);
    match e
    case Comma(a, b) => ExprTidy(fr, a, d); Two(ExprCode(fr, a, d), ExprCode(fr, b, d));
    case Bin(op, a, b) =>
      ExprTidy(fr, a, d + 1);
      BinTidy(op);
      One(Push(RAX));
      One(Pop(RDI));
      Five(ExprCode(fr, b, d), P(Push(RAX)), ExprCode(fr, a, d + 1), P(Pop(RDI)), BinCode(op));
    case AndAlso(a, b) => ExprTidy(fr, a, d); CircuitTidy(ExprCode(fr, a, d), ExprCode(fr, b, d), E, 1, 0);
    case OrElse(a, b) => ExprTidy(fr, a, d); CircuitTidy(ExprCode(fr, a, d), ExprCode(fr, b, d), NE, 0, 1);
  }

  lemma OtherTidy(fr: Frame, e: Expr, d: nat)
    requires ExprOk(e, Lens(fr)) && (e.Num? || e.Zero? || e.Neg? || e.BitNot? || e.Not? || e.Call?)
    ensures Tidy(ExprCode(fr, e, d))
    decreases e, 1
  {
    match e
    case Neg(a) => ExprTidy(fr, a, d);
    case BitNot(a) => ExprTidy(fr, a, d);
    case Not(a) => ExprTidy(fr, a, d);
    case Call(name, args) =>
      hide Tidy, Lens, PopArgs, CallCode;
      ArgsTidy(fr, args, d);
      PopsTidy(|args|);
      CallTidy(name, |args|, d);
      Three(ArgsCode(fr, args, d), PopArgs(|args|), CallCode(name, |args|, d));
    case _ =>
  }

  lemma ArgsTidy(fr: Frame, args: seq<Expr>, d: nat)
    requires forall i :: 0 <= i < |args| ==> ExprOk(args[i], Lens(fr))
    ensures Tidy(ArgsCode(fr, args, d))
    decreases args, 0
  {
    hide Tidy, P, Lens;
    if args == [] {
      NothingTidy();
    } else {
      var last := |args| - 1;
      ArgsTidy(fr, args[..last], d);
      ExprTidy(fr, args[last], d + last);
      One(Push(RAX));
      Three(ArgsCode(fr, args[..last], d), ExprCode(fr, args[last], d + last), P(Push(RAX)));
    }
  }

  lemma NothingTidy()
    ensures Tidy([])
  {}

  lemma ExprSparing(fr: Frame, e: Expr, d: nat)
    requires ExprOk(e, Lens(fr))
    ensures Sparing(ExprCode(fr, e, d))
  {
    ExprTidy(fr, e, d);
    TidyBoth(ExprCode(fr, e, d));
  }

  // ----- statements -----

  lemma Both(a: seq<Sym>, b: seq<Sym>)
    requires Sparing(a) && Sparing(b)
    ensures Sparing(a + b)
  {}

  lemma Single(i: Instr)
    requires Spares(i)
    ensures Sparing(P(i))
  {}

  lemma Nothing()
    ensures Sparing([])
  {}

  lemma OptSparing(fr: Frame, e: Option<Expr>, missing: seq<Sym>, d: nat)
    requires OptOk(e, Lens(fr)) && Sparing(missing)
    ensures Sparing(OptCode(fr, e, missing, d))
  {
    hide ExprCode, Sparing;
    if e.Some? { ExprSparing(fr, e.value, d); }
  }

  lemma BranchSparing(c: seq<Sym>, l: Label)
    requires Sparing(c)
    ensures Sparing(Branch(c, l))
  {
    assert Sparing(P(TestRax) + [SymJcc(E, l)]);
    Both(c, P(TestRax) + [SymJcc(E, l)]);
  }

  lemma SkippingSparing(t: seq<Sym>, n: nat)
    requires Sparing(t)
    ensures Sparing(Skipping(t, n))
  {}

  lemma CloseSparing(c: seq<Sym>, brk: int, cont: int)
    requires Sparing(c)
    ensures Sparing(Close(c, brk, cont))
  {
    forall i | 0 <= i < |c| ensures SparesSym(Close(c, brk, cont)[i]) { assert SparesSym(c[i]); }
  }

  lemma LoopSparing(head: seq<Sym>, body: seq<Sym>, next: seq<Sym>)
    requires Sparing(head) && Sparing(body) && Sparing(next)
    ensures Sparing(LoopCode(head, body, next))
  {
    hide Sparing;
    var back := [SymJmp(Rel(-(|head| + |body| + |next| + 1)))];
    assert Sparing(back) by { JumpSparing(Rel(-(|head| + |body| + |next| + 1))); }
    Both(next, back);
    Both(body, next + back);
    Both(head, body + (next + back));
    CloseSparing(OpenLoop(head, body, next), |head| + |body| + |next| + 1, |head| + |body|);
  }

  lemma JumpSparing(l: Label)
    ensures Sparing([SymJmp(l)])
  {}

  lemma StmtSparing(fr: Frame, s: Stmt, u: Unwind, d: nat)
    requires StmtOk(s, Lens(fr), u.inDefer) && UnwindOk(u, Lens(fr))
    ensures Sparing(StmtCode(fr, s, u, d))
    decreases Weight(u) + Size(s), 2
  {
    hide Sparing;
    match s
    case Block(b) =>
      DefersOk(b, Lens(fr), u.inDefer);
      BlockSparing(fr, b, OpenScope(u), d);
      PendingSparing(fr, DefersOf(b), d);
      Both(BlockCode(fr, b, OpenScope(u), d), PendingCode(fr, DefersOf(b), d));
    case Expression(e) => Nothing(); OptSparing(fr, e, [], d);
    case Return(e) => ReturnSparing(fr, e, u, d);
    case If(c, t, e) => IfSparing(fr, c, t, e, u, d);
    case For(_, _, _, _) => ForSparing(fr, s, u, d);
    case Break => LeavingSparing(fr, s, u, d);
    case Continue => LeavingSparing(fr, s, u, d);
    case Defer(_) => assert false;
  }

  lemma LeavingSparing(fr: Frame, s: Stmt, u: Unwind, d: nat)
    requires StmtOk(s, Lens(fr), u.inDefer) && UnwindOk(u, Lens(fr)) && (s.Break? || s.Continue?)
    ensures Sparing(StmtCode(fr, s, u, d))
    decreases Weight(u) + 1, 0
  {
    hide Sparing, UnwindCode;
    WeightOfPart(u.open, |u.open| - u.outsideLoop);
    UnwindSparing(fr, Inner(u), d);
    JumpSparing(ToBreak);
    JumpSparing(ToContinue);
    Both(UnwindCode(fr, Inner(u), d), [SymJmp(if s.Break? then ToBreak else ToContinue)]);
  }

  lemma ReturnSparing(fr: Frame, e: Option<Expr>, u: Unwind, d: nat)
    requires StmtOk(Return(e), Lens(fr), u.inDefer) && UnwindOk(u, Lens(fr))
    ensures Sparing(StmtCode(fr, Return(e), u, d))
    decreases Weight(u) + 1, 0
  {
    hide Sparing, UnwindCode, OptCode, P;
    Single(MovImm(RAX, 0));
    OptSparing(fr, e, P(MovImm(RAX, 0)), d);
    UnwindSparing(fr, u.open, d + 1);
    LeaveSparing(fr, u.open, d);
    Both(OptCode(fr, e, P(MovImm(RAX, 0)), d), LeaveCode(fr, u.open, d));
  }

  lemma LeaveSparing(fr: Frame, open: seq<seq<Stmt>>, d: nat)
    requires ScopesOk(open, Lens(fr)) && Sparing(UnwindCode(fr, open, d + 1))
    ensures Sparing(LeaveCode(fr, open, d))
  {
    hide Sparing, UnwindCode, P;
    var c := if open == [] then [] else P(Push(RAX)) + UnwindCode(fr, open, d + 1) + P(Pop(RAX));
    Nothing();
    Single(Push(RAX));
    Single(Pop(RAX));
    Single(Leave);
    Single(Ret);
    Both(P(Push(RAX)), UnwindCode(fr, open, d + 1));
    Both(P(Push(RAX)) + UnwindCode(fr, open, d + 1), P(Pop(RAX)));
    Both(c, P(Leave));
    Both(c + P(Leave), P(Ret));
  }

  lemma IfSparing(fr: Frame, c: Expr, t: Stmt, e: Option<Stmt>, u: Unwind, d: nat)
    requires StmtOk(If(c, t, e), Lens(fr), u.inDefer) && UnwindOk(u, Lens(fr))
    ensures Sparing(StmtCode(fr, If(c, t, e), u, d))
    decreases Weight(u) + Size(If(c, t, e)), 1
  {
    hide Sparing, ExprCode, ExprOk, Branch, Skipping;
    ExprSparing(fr, c, d);
    StmtSparing(fr, t, u, d);
    var cc, tc := ExprCode(fr, c, d), StmtCode(fr, t, u, d);
    BranchSparing(cc, Rel(|tc|));
    if e.None? {
      Both(Branch(cc, Rel(|tc|)), tc);
    } else {
      StmtSparing(fr, e.value, u, d);
      var ec := StmtCode(fr, e.value, u, d);
      BranchSparing(cc, Rel(|tc| + 1));
      SkippingSparing(tc, |ec|);
      Both(Skipping(tc, |ec|), ec);
      Both(Branch(cc, Rel(|tc| + 1)), Skipping(tc, |ec|) + ec);
    }
  }

  lemma ForSparing(fr: Frame, s: Stmt, u: Unwind, d: nat)
    requires s.For? && StmtOk(s, Lens(fr), u.inDefer) && UnwindOk(u, Lens(fr))
    ensures Sparing(StmtCode(fr, s, u, d))
    decreases Weight(u) + Size(s), 1
  {
    hide Sparing, HeadCode, OptCode, LoopCode;
    Nothing();
    HeadSparing(fr, s.test, d);
    OptSparing(fr, s.step, [], d);
    StmtSparing(fr, s.loop, EnterLoop(u), d);
    LoopSparing(HeadCode(fr, s.test, d), StmtCode(fr, s.loop, EnterLoop(u), d), OptCode(fr, s.step, [], d));
    var code := LoopCode(HeadCode(fr, s.test, d), StmtCode(fr, s.loop, EnterLoop(u), d), OptCode(fr, s.step, [], d));
    if s.init.Some? {
      StmtSparing(fr, s.init.value, u, d);
      Both(StmtCode(fr, s.init.value, u, d), code);
    } else {
      assert [] + code == code;
    }
  }

  lemma HeadSparing(fr: Frame, c: Option<Expr>, d: nat)
    requires OptOk(c, Lens(fr))
    ensures Sparing(HeadCode(fr, c, d))
  {
    hide Sparing, ExprCode, Branch;
    Nothing();
    if c.Some? {
      ExprSparing(fr, c.value, d);
      BranchSparing(ExprCode(fr, c.value, d), ToBreak);
    }
  }

  lemma {:induction false} BlockSparing(fr: Frame, b: seq<Stmt>, u: Unwind, d: nat)
    requires BlockOk(b, Lens(fr), u.inDefer) && UnwindOk(u, Lens(fr))
    ensures Sparing(BlockCode(fr, b, u, d))
    decreases Weight(u) + SizeAll(b), 0
  {
    hide Sparing;
    if b == [] {
      Nothing();
    } else if b[0].Defer? {
      RegisterWeight(u, b[0].d);
      assert SizeAll(b) == 2 + Size(b[0].d) + SizeAll(b[1..]);
      BlockSparing(fr, b[1..], Register(u, b[0].d), d);
    } else {
      StmtSparing(fr, b[0], u, d);
      BlockSparing(fr, b[1..], u, d);
      Both(StmtCode(fr, b[0], u, d), BlockCode(fr, b[1..], u, d));
    }
  }

  lemma {:induction false} PendingSparing(fr: Frame, l: seq<Stmt>, d: nat)
    requires PendingOk(l, Lens(fr))
    ensures Sparing(PendingCode(fr, l, d))
    decreases SizeAll(l), 0
  {
    hide Sparing;
    if l == [] {
      Nothing();
    } else {
      StmtSparing(fr, l[0], DEFERRED, d);
      PendingSparing(fr, l[1..], d);
      Both(StmtCode(fr, l[0], DEFERRED, d), PendingCode(fr, l[1..], d));
    }
  }

  lemma {:induction false} UnwindSparing(fr: Frame, open: seq<seq<Stmt>>, d: nat)
    requires ScopesOk(open, Lens(fr))
    ensures Sparing(UnwindCode(fr, open, d))
    decreases SizeOpen(open), 1
  {
    hide Sparing;
    if open == [] {
      Nothing();
    } else {
      PendingSparing(fr, open[0], d);
      UnwindSparing(fr, open[1..], d);
      Both(PendingCode(fr, open[0], d), UnwindCode(fr, open[1..], d));
    }
  }
}
