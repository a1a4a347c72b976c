/** The code `src/codegen.c` emits, as a function of the tree: what every method of the emitter is
    proved to append. Jumps out of a piece of code carry a label until their target is known. */
module Lowering {
  import opened Common
  import opened Source
  import opened Machine

  datatype Label = Rel(d: int) | ToBreak | ToContinue | ToPanic

  datatype Sym = Plain(i: Instr) | SymJmp(l: Label) | SymJcc(cc: Cc, l: Label)

  function LabelOf(s: Sym): Label {
    match s
    case Plain(_) => Rel(0)
    case SymJmp(l) => l
    case SymJcc(_, l) => l
  }

  /** A local's place in the frame: the distance of its first word below RBP, and its words. */
  datatype Slot = Slot(off: nat, len: nat, isArray: bool)

  type Frame = seq<Slot>

  function Lens(fr: Frame): (l: seq<nat>)
    ensures |l| == |fr| && forall x :: 0 <= x < |fr| ==> l[x] == fr[x].len
  {
    seq(|fr|, x requires 0 <= x < |fr| => fr[x].len)
  }

  /** The shortest encoding of a constant load. */
  function MovImm(r: Reg, v: I64): Instr {
    if v == 0 then XorZero(r)
    else if 0 < v <= 0xffff_ffff then MovU32(r, v)
    else if -0x8000_0000 <= v <= 0x7fff_ffff then MovS32(r, v % 0x1_0000_0000)
    else MovAbs(r, Unsigned(v))
  }

  function P(i: Instr): seq<Sym> { [Plain(i)] }

  function CompareCode(op: BinOp): Cc
    requires op in {Eq, Ne, Lt, Le}
  {
    match op case Eq => E case Ne => NE case Lt => L case Le => LE
  }

  /** RAX op= RDI. */
  function BinCode(op: BinOp): seq<Sym> {
    match op
    case Add => P(AddRdi)
    case Sub => P(SubRdi)
    case Mul => P(ImulRdi)
    case Div => P(Cqo) + P(IdivRdi)
    case Mod => P(Cqo) + P(IdivRdi) + P(MovReg(RAX, RDX))
    case BitAnd => P(AndRdi)
    case BitOr => P(OrRdi)
    case BitXor => P(XorRdi)
    case ShiftLeft => P(MovReg(RCX, RDI)) + P(ShlCl)
    case ShiftRight => P(MovReg(RCX, RDI)) + P(SarCl)
    case _ => P(CmpRdi) + P(Setcc(CompareCode(op)))
  }

  /** Pops the last n arguments into the first n argument registers, last one first. */
  function PopArgs(n: nat): seq<Sym>
    requires n <= 6
  {
    if n == 0 then [] else P(Pop(CallRegs()[n - 1])) + PopArgs(n - 1)
  }

  /** Keeps RSP a multiple of 16 across the call; d is the number of words pushed below the frame. */
  function CallCode(name: string, n: nat, d: nat): seq<Sym> {
    if d % 2 == 1 then P(SubRsp(8)) + P(CallFn(name, n)) + P(AddRsp(8)) else P(CallFn(name, n))
  }

  /** Checks the index in RAX against the length, scales it and adds the base from the stack. */
  function IndexCode(fr: Frame, x: nat): seq<Sym>
    requires x < |fr|
  {
    P(CmpImm(fr[x].len)) + [SymJcc(AE, ToPanic)] + P(MovImm(RCX, 8)) + P(ImulRcx) + P(Pop(RDI)) + P(AddRdi)
  }

  function PlaceCode(fr: Frame, p: Place, d: nat): seq<Sym>
    requires PlaceOk(p, Lens(fr))
    decreases p, 1
  {
    match p
    case Local(x) => P(LeaLocal(RAX, fr[x].off))
    case Element(x, i) =>
      P(LeaLocal(RAX, fr[x].off)) + P(Push(RAX)) + ExprCode(fr, i, d + 1) + IndexCode(fr, x)
  }

  /** The value ends up in RAX; d words are on the stack below the frame. */
  function ExprCode(fr: Frame, e: Expr, d: nat): seq<Sym>
    requires ExprOk(e, Lens(fr))
    decreases e, 1
  {
    match e
    case Num(v) => P(MovImm(RAX, v))
    case Load(p) => PlaceCode(fr, p, d) + P(LoadRax)
    case Assign(p, a) =>
      PlaceCode(fr, p, d) + P(Push(RAX)) + ExprCode(fr, a, d + 1) + P(Pop(RDI)) + P(StoreRdi)
    case OpAssign(op, p, a) =>
      PlaceCode(fr, p, d) + P(Push(RAX)) + P(LoadRax) + P(Push(RAX)) + ExprCode(fr, a, d + 2)
      + P(MovReg(RDI, RAX)) + P(Pop(RAX)) + BinCode(op) + P(Pop(RDI)) + P(StoreRdi)
    case Zero(x) =>
      if !fr[x].isArray then P(MovImm(RAX, 0)) + P(StLocal(fr[x].off, RAX))
      else P(LeaLocal(RDI, fr[x].off)) + P(MovImm(RAX, 0)) + P(MovImm(RCX, Wrap(8 * fr[x].len))) + P(RepStosb)
    case Comma(a, b) => ExprCode(fr, a, d) + ExprCode(fr, b, d)
    case Neg(a) => ExprCode(fr, a, d) + P(NegRax)
    case BitNot(a) => ExprCode(fr, a, d) + P(NotRax)
    case Not(a) => ExprCode(fr, a, d) + P(TestRax) + P(Setcc(E))
    case Bin(op, a, b) => ExprCode(fr, b, d) + P(Push(RAX)) + ExprCode(fr, a, d + 1) + P(Pop(RDI)) + BinCode(op)
    case AndAlso(a, b) => ShortCircuit(ExprCode(fr, a, d), ExprCode(fr, b, d), E, 1, 0)
    case OrElse(a, b) => ShortCircuit(ExprCode(fr, a, d), ExprCode(fr, b, d), NE, 0, 1)
    case Call(name, args) => ArgsCode(fr, args, d) + PopArgs(|args|) + CallCode(name, |args|, d)
  }

  /** Both conditional jumps go to the last load; falling through skips it. */
  function ShortCircuit(a: seq<Sym>, b: seq<Sym>, cc: Cc, both: I64, decided: I64): seq<Sym> {
    a + P(TestRax) + [SymJcc(cc, Rel(|b| + 4))]
    + b + P(TestRax) + [SymJcc(cc, Rel(2))] + P(MovImm(RAX, both)) + [SymJmp(Rel(1))] + P(MovImm(RAX, decided))
  }

  /** Every argument is pushed in turn. */
  function ArgsCode(fr: Frame, args: seq<Expr>, d: nat): seq<Sym>
    requires forall i :: 0 <= i < |args| ==> ExprOk(args[i], Lens(fr))
    decreases args, 0
  {
    if args == [] then []
    else
      var last := |args| - 1;
      ArgsCode(fr, args[..last], d) + ExprCode(fr, args[last], d + last) + P(Push(RAX))
  }

  // ----- statements -----

  /** The scopes that are open in a function or in a deferred statement, innermost first, each with its
      registered defers, most recent first; how many of them lie outside the innermost loop; whether
      there is a loop; and whether this is a deferred statement. */
  datatype Unwind = Unwind(open: seq<seq<Stmt>>, outsideLoop: nat, inLoop: bool, inDefer: bool)

  const OUTERMOST: Unwind := Unwind([], 0, false, false)

  /** A deferred statement begins with no scope and no loop of its own. */
  const DEFERRED: Unwind := Unwind([], 0, false, true)

  function OpenScope(u: Unwind): Unwind { u.(open := [[]] + u.open) }

  function Register(u: Unwind, d: Stmt): Unwind {
    if u.open == [] then u else u.(open := [[d] + u.open[0]] + u.open[1..])
  }

  function EnterLoop(u: Unwind): Unwind { u.(outsideLoop := |u.open|, inLoop := true) }

  /** The defers a block registers, the most recent first. */
  function DefersOf(b: seq<Stmt>): (l: seq<Stmt>)
    ensures SizeAll(l) <= SizeAll(b)
  {
    if b == [] then []
    else if b[0].Defer? then SizeSnoc(DefersOf(b[1..]), b[0].d); DefersOf(b[1..]) + [b[0].d]
    else DefersOf(b[1..])
  }

  lemma SizeSnoc(l: seq<Stmt>, d: Stmt)
    ensures SizeAll(l + [d]) == SizeAll(l) + 1 + Size(d)
    decreases l
  {
    if l != [] {
      assert (l + [d])[1..] == l[1..] + [d];
      SizeSnoc(l[1..], d);
    }
  }

  lemma DefersOk(b: seq<Stmt>, lens: seq<nat>, inDefer: bool)
    requires BlockOk(b, lens, inDefer)
    ensures PendingOk(DefersOf(b), lens)
    decreases b
  {
    if b != [] {
      DefersOk(b[1..], lens, inDefer);
      if b[0].Defer? { PendingSnoc(DefersOf(b[1..]), b[0].d, lens); }
    }
  }

  predicate ScopesOk(open: seq<seq<Stmt>>, lens: seq<nat>) {
    forall i :: 0 <= i < |open| ==> PendingOk(open[i], lens)
  }

  predicate UnwindOk(u: Unwind, lens: seq<nat>) {
    ScopesOk(u.open, lens) && u.outsideLoop <= |u.open|
  }

  /** Unwinding runs deferred statements of scopes already open, so code shrinks with what is left. */
  function Weight(u: Unwind): nat { SizeOpen(u.open) }

  lemma RegisterWeight(u: Unwind, d: Stmt)
    ensures Weight(Register(u, d)) <= Weight(u) + 1 + Size(d)
  {
    if u.open != [] {
      var l := [d] + u.open[0];
      assert l[1..] == u.open[0] && ([l] + u.open[1..])[1..] == u.open[1..];
    }
  }

  lemma {:induction false} WeightOfPart(open: seq<seq<Stmt>>, n: nat)
    requires n <= |open|
    ensures SizeOpen(open[..n]) <= SizeOpen(open)
    decreases |open|
  {
    if n > 0 {
      assert open[..n][1..] == open[1..][..n - 1];
      WeightOfPart(open[1..], n - 1);
    }
  }

  function StmtCode(fr: Frame, s: Stmt, u: Unwind, d: nat): seq<Sym>
    requires StmtOk(s, Lens(fr), u.inDefer) && UnwindOk(u, Lens(fr))
    decreases Weight(u) + Size(s), 1
  {
    match s
    case Block(b) =>
      DefersOk(b, Lens(fr), u.inDefer);
      BlockCode(fr, b, OpenScope(u), d) + PendingCode(fr, DefersOf(b), d)
    case Expression(e) => OptCode(fr, e, [], d)
    case Return(e) => OptCode(fr, e, P(MovImm(RAX, 0)), d) + LeaveCode(fr, u.open, d)
    case If(c, t, e) =>
      var tc := StmtCode(fr, t, u, d);
      if e.None? then Branch(ExprCode(fr, c, d), Rel(|tc|)) + tc
      else
        var ec := StmtCode(fr, e.value, u, d);
        Branch(ExprCode(fr, c, d), Rel(|tc| + 1)) + (Skipping(tc, |ec|) + ec)
    case For(i, c, step, b) =>
      var head := HeadCode(fr, c, d);
      var body := StmtCode(fr, b, EnterLoop(u), d);
      var next := OptCode(fr, step, [], d);
      (if i.None? then [] else StmtCode(fr, i.value, u, d)) + LoopCode(head, body, next)
    case Break =>
      WeightOfPart(u.open, |u.open| - u.outsideLoop);
      UnwindCode(fr, Inner(u), d) + [SymJmp(ToBreak)]
    case Continue =>
      WeightOfPart(u.open, |u.open| - u.outsideLoop);
      UnwindCode(fr, Inner(u), d) + [SymJmp(ToContinue)]
  }

  /** Jumps to l if the condition c is 0. */
  function Branch(c: seq<Sym>, l: Label): (r: seq<Sym>)
    ensures |r| == |c| + 2
  {
    c + (P(TestRax) + [SymJcc(E, l)])
  }

  /** The code t, then a jump over n instructions. */
  function Skipping(t: seq<Sym>, n: nat): (r: seq<Sym>)
    ensures |r| == |t| + 1
  {
    t + [SymJmp(Rel(n))]
  }

  /** The scopes a jump to the innermost loop leaves. */
  function Inner(u: Unwind): seq<seq<Stmt>>
    requires u.outsideLoop <= |u.open|
  {
    u.open[..|u.open| - u.outsideLoop]
  }

  function OptCode(fr: Frame, e: Option<Expr>, missing: seq<Sym>, d: nat): seq<Sym>
    requires OptOk(e, Lens(fr))
  {
    if e.None? then missing else ExprCode(fr, e.value, d)
  }

  /** The value in RAX is kept on the stack while the defers of every scope run. */
  function LeaveCode(fr: Frame, open: seq<seq<Stmt>>, d: nat): seq<Sym>
    requires ScopesOk(open, Lens(fr))
    decreases SizeOpen(open), 2
  {
    (if open == [] then [] else P(Push(RAX)) + UnwindCode(fr, open, d + 1) + P(Pop(RAX))) + P(Leave) + P(Ret)
  }

  function HeadCode(fr: Frame, c: Option<Expr>, d: nat): seq<Sym>
    requires OptOk(c, Lens(fr))
  {
    if c.None? then [] else Branch(ExprCode(fr, c.value, d), ToBreak)
  }

  /** Test, body, step, jump back; `continue` lands on the step, `break` behind the loop. */
  function LoopCode(head: seq<Sym>, body: seq<Sym>, next: seq<Sym>): seq<Sym> {
    Close(OpenLoop(head, body, next), |head| + |body| + |next| + 1, |head| + |body|)
  }

  function OpenLoop(head: seq<Sym>, body: seq<Sym>, next: seq<Sym>): (r: seq<Sym>)
    ensures |r| == |head| + |body| + |next| + 1
  {
    head + (body + (next + [SymJmp(Rel(-(|head| + |body| + |next| + 1)))]))
  }

  /** Resolves the loop labels of a piece of code to positions in it. */
  function Close(c: seq<Sym>, brk: int, cont: int): (r: seq<Sym>)
    ensures |r| == |c|
  {
    seq(|c|, i requires 0 <= i < |c| => CloseSym(c[i], i, brk, cont))
  }

  function CloseLabel(l: Label, i: int, brk: int, cont: int): Label {
    match l
    case ToBreak => Rel(brk - (i + 1))
    case ToContinue => Rel(cont - (i + 1))
    case _ => l
  }

  function CloseSym(s: Sym, i: int, brk: int, cont: int): Sym {
    match s
    case Plain(_) => s
    case SymJmp(l) => SymJmp(CloseLabel(l, i, brk, cont))
    case SymJcc(cc, l) => SymJcc(cc, CloseLabel(l, i, brk, cont))
  }

  function BlockCode(fr: Frame, b: seq<Stmt>, u: Unwind, d: nat): seq<Sym>
    requires BlockOk(b, Lens(fr), u.inDefer) && UnwindOk(u, Lens(fr))
    decreases Weight(u) + SizeAll(b), 0
  {
    if b == [] then []
    else if b[0].Defer? then
      RegisterWeight(u, b[0].d);
      assert SizeAll(b) == 2 + Size(b[0].d) + SizeAll(b[1..]);
      BlockCode(fr, b[1..], Register(u, b[0].d), d)
    else StmtCode(fr, b[0], u, d) + BlockCode(fr, b[1..], u, d)
  }

  function PendingCode(fr: Frame, l: seq<Stmt>, d: nat): seq<Sym>
    requires PendingOk(l, Lens(fr))
    decreases SizeAll(l), 0
  {
    if l == [] then [] else StmtCode(fr, l[0], DEFERRED, d) + PendingCode(fr, l[1..], d)
  }

  function SizeOpen(open: seq<seq<Stmt>>): nat {
    if open == [] then 0 else 1 + SizeAll(open[0]) + SizeOpen(open[1..])
  }

  function UnwindCode(fr: Frame, open: seq<seq<Stmt>>, d: nat): seq<Sym>
    requires ScopesOk(open, Lens(fr))
    decreases SizeOpen(open), 1
  {
    if open == [] then [] else PendingCode(fr, open[0], d) + UnwindCode(fr, open[1..], d)
  }
}
