/** How deep the stack gets: every place in the code of a function has one depth, however it is reached,
    and the source bounds it. */
module Depths {
  import opened Common
  import opened Source
  import opened Machine
  import opened Lowering
  import opened Simulation
  import opened Registers
  import opened Functions
  import opened Emission
  import opened Bits

  // ----- what the source pushes -----

  function Max(a: nat, b: nat): nat { if a < b then b else a }

  /** The words that are on the stack at once while e is evaluated. */
  function Pushes(e: Expr): nat {
    match e
    case Num(_) => 0
    case Zero(_) => 0
    case Load(p) => PushesAt(p)
    case Assign(p, a) => Max(PushesAt(p), 1 + Pushes(a))
    case OpAssign(_, p, a) => Max(PushesAt(p), 2 + Pushes(a))
    case Comma(a, b) => Max(Pushes(a), Pushes(b))
    case Neg(a) => Pushes(a)
    case BitNot(a) => Pushes(a)
    case Not(a) => Pushes(a)
    case Bin(_, a, b) => Max(Pushes(b), 1 + Pushes(a))
    case AndAlso(a, b) => Max(Pushes(a), Pushes(b))
    case OrElse(a, b) => Max(Pushes(a), Pushes(b))
    case Call(_, args) => Max(1, PushesAll(args))
  }

  function PushesAt(p: Place): nat { match p case Local(_) => 0 case Element(_, i) => 1 + Pushes(i) }

  /** The arguments before one are on the stack while it is evaluated. */
  function PushesAll(args: seq<Expr>): (n: nat)
    ensures n >= |args|
  {
    if args == [] then 0
    else
      var last := |args| - 1;
      Max(PushesAll(args[..last]), Max(|args|, last + Pushes(args[last])))
  }

  function PushesOpt(e: Option<Expr>): nat { if e.None? then 0 else Pushes(e.value) }

  /** The most that an expression of s pushes, those of its deferred statements included. */
  function Deepest(s: Stmt): nat {
    match s
    case Block(b) => DeepestAll(b)
    case Defer(d) => Deepest(d)
    case Expression(e) => PushesOpt(e)
    case Return(e) => PushesOpt(e)
    case If(c, t, e) => Max(Pushes(c), Max(Deepest(t), if e.None? then 0 else Deepest(e.value)))
    case For(i, c, step, b) =>
      Max(if i.None? then 0 else Deepest(i.value), Max(PushesOpt(c), Max(PushesOpt(step), Deepest(b))))
    case _ => 0
  }

  function DeepestAll(b: seq<Stmt>): nat { if b == [] then 0 else Max(Deepest(b[0]), DeepestAll(b[1..])) }

  // ----- depth in the code -----

  /** The words that an instruction leaves on the stack. */
  function Pushed(i: Instr): int {
    match i
    case Push(_) => 1
    case Pop(_) => -1
    case SubRsp(n) => n / 8
    case AddRsp(n) => -(n / 8)
    case _ => 0
  }

  function Delta(s: Sym): int { if s.Plain? then Pushed(s.i) else 0 }

  /** The depth before instruction k, from 0 at the start. */
  function Depth(c: seq<Sym>, k: nat): int
    requires k <= |c|
  {
    if k == 0 then 0 else Depth(c, k - 1) + Delta(c[k - 1])
  }

  lemma {:induction false} DepthJoin(a: seq<Sym>, b: seq<Sym>, k: nat)
    requires k <= |a| + |b|
    ensures Depth(a + b, k) == if k <= |a| then Depth(a, k) else Depth(a, |a|) + Depth(b, k - |a|)
    decreases k
  {
    if k > 0 { DepthJoin(a, b, k - 1); }
  }

  /** An instruction that moves RSP only by pushing and popping whole words. */
  predicate Stacks(i: Instr) {
    match i
    case XorZero(r) => r != RSP
    case MovU32(r, _) => r != RSP
    case MovS32(r, _) => r != RSP
    case MovAbs(r, _) => r != RSP
    case MovReg(r, _) => r != RSP
    case Pop(r) => r != RSP
    case LeaLocal(r, _) => r != RSP
    case LdLocal(r, _) => r != RSP
    case SubRsp(n) => n % 8 == 0
    case AddRsp(n) => n % 8 == 0
    case Jmp(_) => false
    case Jcc(_, _) => false
    case _ => true
  }

  /** A jump ends at the depth at which it starts. */
  predicate Tracks(c: seq<Sym>, k: nat, loops: bool)
    requires k < |c|
  {
    match c[k]
    case Plain(i) => Stacks(i) && (i.Leave? ==> k + 1 < |c| && c[k + 1] == Plain(Ret))
    case _ =>
      match LabelOf(c[k])
      case Rel(r) => 0 <= k + 1 + r <= |c| && Depth(c, k + 1 + r) == Depth(c, k)
      case ToPanic => true
      case _ => loops && Depth(c, k) == 0
  }

  /** The code leaves `net` words, never has more than `top`, and never fewer than it starts or ends with;
      `loops` says that it may hold jumps that wait for a loop. */
  ghost predicate Level(c: seq<Sym>, net: int, top: int, loops: bool) {
    && Depth(c, |c|) == net
    && (forall k {:trigger Depth(c, k)} :: 0 <= k <= |c| ==> (if net < 0 then net else 0) <= Depth(c, k) <= top)
    && forall k :: 0 <= k < |c| ==> Tracks(c, k, loops)
  }

  lemma Looser(c: seq<Sym>, net: int, top: int, loops: bool, top': int, loops': bool)
    requires Level(c, net, top, loops) && top <= top' && (loops ==> loops')
    ensures Level(c, net, top', loops')
  {
    forall k | 0 <= k < |c| ensures Tracks(c, k, loops') { assert Tracks(c, k, loops); }
  }

  lemma TracksLeft(a: seq<Sym>, b: seq<Sym>, k: nat, loops: bool)
    requires k < |a| && Tracks(a, k, loops)
    ensures Tracks(a + b, k, loops)
  {
    DepthJoin(a, b, k);
    var c := a + b;
    assert c[k] == a[k] && (k + 1 < |a| ==> c[k + 1] == a[k + 1]);
    if !a[k].Plain? && LabelOf(a[k]).Rel? { DepthJoin(a, b, k + 1 + LabelOf(a[k]).d); }
  }

  lemma TracksRight(a: seq<Sym>, b: seq<Sym>, k: nat, lb: bool, loops: bool)
    requires k < |b| && Tracks(b, k, lb) && (lb ==> loops && Depth(a, |a|) == 0)
    ensures Tracks(a + b, |a| + k, loops)
  {
    DepthJoin(a, b, |a| + k);
    var c := a + b;
    assert c[|a| + k] == b[k] && (k + 1 < |b| ==> c[|a| + k + 1] == b[k + 1]);
    DepthJoin(a, b, |a|);
    if !b[k].Plain? && LabelOf(b[k]).Rel? { DepthJoin(a, b, |a| + k + 1 + LabelOf(b[k]).d); }
  }

  lemma Join(a: seq<Sym>, na: int, b: seq<Sym>, nb: int, lb: bool, top: int, loops: bool)
    requires Level(a, na, top, loops) && Level(b, nb, top - na, lb) && (lb ==> loops && na == 0)
    requires na >= 0 || nb <= 0
    ensures Level(a + b, na + nb, top, loops)
  {
    hide Tracks;
    var c := a + b;
    DepthJoin(a, b, |c|);
    if b == [] { assert c == a; }
    forall k {:trigger Depth(c, k)} | 0 <= k <= |c|
      ensures (if na + nb < 0 then na + nb else 0) <= Depth(c, k) <= top
    {
      DepthJoin(a, b, k);
      if k > |a| { assert Depth(b, k - |a|) <= top - na; } else { assert Depth(a, k) <= top; }
    }
    forall k | 0 <= k < |c| ensures Tracks(c, k, loops) {
      if k < |a| {
        assert Tracks(a, k, loops) by { assert a[k] == c[k]; }
        TracksLeft(a, b, k, loops);
      } else {
        assert Tracks(b, k - |a|, lb) by { assert b[k - |a|] == c[k]; }
        TracksRight(a, b, k - |a|, lb, loops);
      }
    }
  }

  lemma One(i: Instr, top: int)
    requires Stacks(i) && !i.Leave? && 0 <= top && Pushed(i) <= top
    ensures Level(P(i), Pushed(i), top, false)
  {
    var c := P(i);
    assert Depth(c, 0) == 0 && Depth(c, 1) == Pushed(i);
  }

  lemma Nothing(top: int, loops: bool)
    requires top >= 0
    ensures Level([], 0, top, loops)
  {
    assert Depth([], 0) == 0;
  }

  /** Code, a jump, and code that the jump leads into, to a place at depth 0. */
  lemma JumpIn(x: seq<Sym>, j: Sym, y: seq<Sym>, top: int, loops: bool)
    requires Level(x, 0, top, loops) && Level(y, 0, top, loops) && !j.Plain? && LabelOf(j).Rel?
    requires 0 <= LabelOf(j).d <= |y| && Depth(y, LabelOf(j).d) == 0
    ensures Level(x + [j] + y, 0, top, loops)
  {
    hide Tracks;
    var c := x + [j] + y;
    assert c == x + ([j] + y);
    var r := [j] + y;
    assert Depth([j], 0) == 0 && Depth([j], 1) == 0;
    forall k {:trigger Depth(c, k)} | 0 <= k <= |c|
      ensures 0 <= Depth(c, k) <= top && (k > |x| ==> Depth(c, k) == Depth(y, k - |x| - 1))
    {
      DepthJoin(x, r, k);
      if k > |x| { DepthJoin([j], y, k - |x|); }
      if k > |x| { assert Depth(y, k - |x| - 1) <= top; } else { assert Depth(x, k) <= top; }
    }
    DepthJoin(x, r, |x|);
    forall k | 0 <= k < |c| ensures Tracks(c, k, loops) {
      if k < |x| {
        assert Tracks(x, k, loops) by { assert x[k] == c[k]; }
        TracksLeft(x, r, k, loops);
      } else if k > |x| {
        assert Tracks(y, k - |x| - 1, loops) by { assert y[k - |x| - 1] == c[k]; }
        assert c == (x + [j]) + y;
        DepthJoin(x, [j], |x| + 1);
        TracksRight(x + [j], y, k - |x| - 1, loops, loops);
      } else {
        JumpTracks(c, k, LabelOf(j).d, loops);
      }
    }
  }

  lemma JumpTracks(c: seq<Sym>, k: nat, d: int, loops: bool)
    requires k < |c| && !c[k].Plain? && LabelOf(c[k]) == Rel(d) && 0 <= k + 1 + d <= |c|
    requires Depth(c, k + 1 + d) == Depth(c, k)
    ensures Tracks(c, k, loops)
  {}

  /** Code that ends with a jump back to its start. */
  lemma JumpBack(x: seq<Sym>, top: int, loops: bool)
    requires Level(x, 0, top, loops)
    ensures Level(x + [SymJmp(Rel(-(|x| + 1)))], 0, top, loops)
  {
    hide Tracks;
    var j := [SymJmp(Rel(-(|x| + 1)))];
    var c := x + j;
    assert Depth(j, 0) == 0 && Depth(j, 1) == 0;
    forall k {:trigger Depth(c, k)} | 0 <= k <= |c| ensures 0 <= Depth(c, k) <= top {
      DepthJoin(x, j, k);
      if k <= |x| { assert Depth(x, k) <= top; }
    }
    DepthJoin(x, j, |c|);
    DepthJoin(x, j, |x|);
    forall k | 0 <= k < |c| ensures Tracks(c, k, loops) {
      if k < |x| {
        assert Tracks(x, k, loops) by { assert x[k] == c[k]; }
        TracksLeft(x, j, k, loops);
      } else {
        JumpTracks(c, k, -(|x| + 1), loops);
      }
    }
  }

  /** Code whose waiting jumps are led to places at depth 0. */
  lemma CloseLevel(c: seq<Sym>, brk: nat, cont: nat, top: int)
    requires Level(c, 0, top, true) && brk <= |c| && cont <= |c| && Depth(c, brk) == 0 && Depth(c, cont) == 0
    ensures Level(Close(c, brk, cont), 0, top, false)
  {
    var z := Close(c, brk, cont);
    forall k: nat {:trigger Depth(z, k)} | k <= |c| ensures Depth(z, k) == Depth(c, k) { CloseDepth(c, brk, cont, k); }
    forall k | 0 <= k < |z| ensures Tracks(z, k, false) {
      assert Tracks(c, k, true);
      CloseTracks(c, brk, cont, k);
    }
    assert forall k {:trigger Depth(z, k)} :: 0 <= k <= |z| ==> 0 <= Depth(z, k) <= top;
  }

  lemma {:induction false} CloseDepth(c: seq<Sym>, brk: nat, cont: nat, k: nat)
    requires k <= |c|
    ensures Depth(Close(c, brk, cont), k) == Depth(c, k)
    decreases k
  {
    if k > 0 { CloseDepth(c, brk, cont, k - 1); }
  }

  lemma CloseTracks(c: seq<Sym>, brk: nat, cont: nat, k: nat)
    requires k < |c| && Tracks(c, k, true) && brk <= |c| && cont <= |c| && Depth(c, brk) == 0 && Depth(c, cont) == 0
    requires forall k: nat {:trigger Depth(c, k)} :: k <= |c| ==> Depth(Close(c, brk, cont), k) == Depth(c, k)
    ensures Tracks(Close(c, brk, cont), k, false)
  {
    var z := Close(c, brk, cont);
    assert z[k] == CloseSym(c[k], k, brk, cont) && (k + 1 < |c| ==> z[k + 1] == CloseSym(c[k + 1], k + 1, brk, cont));
    assert Depth(z, k) == Depth(c, k);
    if !c[k].Plain? && LabelOf(c[k]).Rel? { assert Depth(c, k + 1 + LabelOf(c[k]).d) == Depth(c, k); }
  }

  // ----- expressions -----

  lemma BinLevel(op: BinOp, top: nat)
    ensures Level(BinCode(op), 0, top, false)
  {
    hide Level, P;
    match op
    case Div => Two(Cqo, IdivRdi, top);
    case Mod =>
      Two(Cqo, IdivRdi, top);
      Plainly(MovReg(RAX, RDX), top);
      Join(P(Cqo) + P(IdivRdi), 0, P(MovReg(RAX, RDX)), 0, false, top, false);
    case ShiftLeft => Two(MovReg(RCX, RDI), ShlCl, top);
    case ShiftRight => Two(MovReg(RCX, RDI), SarCl, top);
    case Add => Plainly(AddRdi, top);
    case Sub => Plainly(SubRdi, top);
    case Mul => Plainly(ImulRdi, top);
    case BitAnd => Plainly(AndRdi, top);
    case BitOr => Plainly(OrRdi, top);
    case BitXor => Plainly(XorRdi, top);
    case _ => Two(CmpRdi, Setcc(CompareCode(op)), top);
  }

  /** An instruction that leaves the stack alone. */
  predicate Still(i: Instr) { Stacks(i) && !i.Leave? && Pushed(i) == 0 }

  lemma Plainly(i: Instr, top: nat)
    requires Still(i)
    ensures Level(P(i), 0, top, false)
  {
    One(i, top);
  }

  lemma Two(i: Instr, j: Instr, top: nat)
    requires Still(i) && Still(j)
    ensures Level(P(i) + P(j), 0, top, false)
  {
    hide Level, P, Still;
    Plainly(i, top);
    Plainly(j, top);
    Join(P(i), 0, P(j), 0, false, top, false);
  }

  lemma {:induction false} PopsLevel(n: nat, top: nat)
    requires n <= 6
    ensures Level(PopArgs(n), 0 - n, top, false)
    decreases n
  {
    hide Level, P;
    if n == 0 {
      Nothing(top, false);
    } else {
      PopsLevel(n - 1, top + 1);
      One(Pop(CallRegs()[n - 1]), top);
      Join(P(Pop(CallRegs()[n - 1])), -1, PopArgs(n - 1), 1 - n, false, top, false);
    }
  }

  lemma CallLevel(name: string, n: nat, d: nat, top: nat)
    requires top >= 1
    ensures Level(CallCode(name, n, d), 0, top, false)
  {
    hide Level, P;
    Plainly(CallFn(name, n), top - 1);
    if d % 2 == 1 {
      One(SubRsp(8), top);
      One(AddRsp(8), top - 1);
      Join(P(SubRsp(8)), 1, P(CallFn(name, n)), 0, false, top, false);
      Join(P(SubRsp(8)) + P(CallFn(name, n)), 1, P(AddRsp(8)), -1, false, top, false);
    } else {
      Plainly(CallFn(name, n), top);
    }
  }

  /** The address of the array is on the stack, and is popped. */
  lemma IndexLevel(fr: Frame, x: nat, top: nat)
    requires x < |fr|
    ensures Level(IndexCode(fr, x), -1, top, false)
  {
    var c := IndexCode(fr, x);
    assert Depth(c, 0) == 0 && Depth(c, 1) == 0 && Depth(c, 2) == 0 && Depth(c, 3) == 0;
    assert Depth(c, 4) == 0 && Depth(c, 5) == -1 && Depth(c, 6) == -1;
    forall k {:trigger Depth(c, k)} | 0 <= k <= |c| ensures -1 <= Depth(c, k) <= top {}
  }

  lemma CircuitLevel(a: seq<Sym>, b: seq<Sym>, cc: Cc, both: I64, decided: I64, top: nat)
    requires Level(a, 0, top, false) && Level(b, 0, top, false)
    ensures Level(ShortCircuit(a, b, cc, both, decided), 0, top, false)
  {
    hide Level;
    var x, y := a + P(TestRax), b + P(TestRax);
    var l := P(MovImm(RAX, both)) + [SymJmp(Rel(1))] + P(MovImm(RAX, decided));
    var j1, j2 := SymJcc(cc, Rel(|b| + 4)), SymJcc(cc, Rel(2));
    Plainly(TestRax, top);
    MovStill(RAX, both);
    MovStill(RAX, decided);
    Plainly(MovImm(RAX, both), top);
    Plainly(MovImm(RAX, decided), top);
    Join(a, 0, P(TestRax), 0, false, top, false);
    Join(b, 0, P(TestRax), 0, false, top, false);
    LastDepth(P(MovImm(RAX, decided)), 0, top, false);
    JumpIn(P(MovImm(RAX, both)), SymJmp(Rel(1)), P(MovImm(RAX, decided)), top, false);
    ShortDepth(both, decided);
    JumpIn(y, j2, l, top, false);
    LastDepth(y, 0, top, false);
    DepthJoin(y + [j2], l, |b| + 4);
    DepthJoin(y, [j2], |y| + 1);
    SingleJump(j2);
    assert (y + [j2] + l)[..0] == [];
    JumpIn(x, j1, y + [j2] + l, top, false);
    assert ShortCircuit(a, b, cc, both, decided) == x + [j1] + (y + [j2] + l);
  }

  lemma SingleJump(j: Sym)
    requires !j.Plain?
    ensures Depth([j], 1) == 0
  {
    assert Depth([j], 0) == 0;
  }

  lemma LastDepth(c: seq<Sym>, net: int, top: int, loops: bool)
    requires Level(c, net, top, loops)
    ensures Depth(c, |c|) == net
  {}

  lemma ShortDepth(both: I64, decided: I64)
    ensures var l := P(MovImm(RAX, both)) + [SymJmp(Rel(1))] + P(MovImm(RAX, decided));
      |l| == 3 && Depth(l, 2) == 0
  {
    var l := P(MovImm(RAX, both)) + [SymJmp(Rel(1))] + P(MovImm(RAX, decided));
    assert Depth(l, 0) == 0 && Depth(l, 1) == 0;
  }

  lemma MovStill(r: Reg, v: I64)
    requires r != RSP
    ensures Still(MovImm(r, v))
  {}

  lemma PlaceLevel(fr: Frame, p: Place, d: nat, top: nat)
    requires PlaceOk(p, Lens(fr)) && PushesAt(p) <= top
    ensures Level(PlaceCode(fr, p, d), 0, top, false)
    decreases p, 1
  {
    hide Level, P, Lens, IndexCode;
    match p
    case Local(x) => Plainly(LeaLocal(RAX, fr[x].off), top);
    case Element(x, i) =>
      var lea, push, e := P(LeaLocal(RAX, fr[x].off)), P(Push(RAX)), ExprCode(fr, i, d + 1);
      Plainly(LeaLocal(RAX, fr[x].off), top);
      One(Push(RAX), top);
      ExprLevel(fr, i, d + 1, top - 1);
      IndexLevel(fr, x, top - 1);
      Join(lea, 0, push, 1, false, top, false);
      Join(lea + push, 1, e, 0, false, top, false);
      Join(lea + push + e, 1, IndexCode(fr, x), -1, false, top, false);
  }

  /** The code of an expression leaves the stack as it was, and pushes no more than the expression does. */
  lemma ExprLevel(fr: Frame, e: Expr, d: nat, top: nat)
    requires ExprOk(e, Lens(fr)) && Pushes(e) <= top
    ensures Level(ExprCode(fr, e, d), 0, top, false)
    decreases e, 2
  {
    match e
    case Load(_) => StoringLevel(fr, e, d, top);
    case Assign(_, _) => StoringLevel(fr, e, d, top);
    case OpAssign(op, p, a) => OpAssignLevel(fr, op, p, a, d, top);
    case Comma(_, _) => TwoLevel(fr, e, d, top);
    case Bin(_, _, _) => TwoLevel(fr, e, d, top);
    case AndAlso(_, _) => TwoLevel(fr, e, d, top);
    case OrElse(_, _) => TwoLevel(fr, e, d, top);
    case _ => OtherLevel(fr, e, d, top);
  }

  lemma StoringLevel(fr: Frame, e: Expr, d: nat, top: nat)
    requires ExprOk(e, Lens(fr)) && (e.Load? || e.Assign?) && Pushes(e) <= top
    ensures Level(ExprCode(fr, e, d), 0, top, false)
    decreases e, 1
  {
    hide Level, P, Lens, PlaceCode;
    PlaceLevel(fr, e.p, d, top);
    var place := PlaceCode(fr, e.p, d);
    match e
    case Load(p) =>
      Plainly(LoadRax, top);
      Join(place, 0, P(LoadRax), 0, false, top, false);
    case Assign(p, a) =>
      var v := ExprCode(fr, a, d + 1);
      One(Push(RAX), top);
      ExprLevel(fr, a, d + 1, top - 1);
      One(Pop(RDI), top - 1);
      Plainly(StoreRdi, top);
      Join(place, 0, P(Push(RAX)), 1, false, top, false);
      Join(place + P(Push(RAX)), 1, v, 0, false, top, false);
      Join(place + P(Push(RAX)) + v, 1, P(Pop(RDI)), -1, false, top, false);
      Join(place + P(Push(RAX)) + v + P(Pop(RDI)), 0, P(StoreRdi), 0, false, top, false);
  }

  lemma OpAssignLevel(fr: Frame, op: BinOp, p: Place, a: Expr, d: nat, top: nat)
    requires ExprOk(OpAssign(op, p, a), Lens(fr)) && Pushes(OpAssign(op, p, a)) <= top
    ensures Level(ExprCode(fr, OpAssign(op, p, a), d), 0, top, false)
    decreases OpAssign(op, p, a), 1
  {
    hide Level, P, Lens, PlaceCode, BinCode;
    var place, v := PlaceCode(fr, p, d), ExprCode(fr, a, d + 2);
    PlaceLevel(fr, p, d, top);
    One(Push(RAX), top);
    Join(place, 0, P(Push(RAX)), 1, false, top, false);
    var c := place + P(Push(RAX));
    Plainly(LoadRax, top - 1);
    Join(c, 1, P(LoadRax), 0, false, top, false);
    c := c + P(LoadRax);
    One(Push(RAX), top - 1);
    Join(c, 1, P(Push(RAX)), 1, false, top, false);
    c := c + P(Push(RAX));
    ExprLevel(fr, a, d + 2, top - 2);
    Join(c, 2, v, 0, false, top, false);
    c := c + v;
    Plainly(MovReg(RDI, RAX), top - 2);
    Join(c, 2, P(MovReg(RDI, RAX)), 0, false, top, false);
    c := c + P(MovReg(RDI, RAX));
    One(Pop(RAX), top - 2);
    Join(c, 2, P(Pop(RAX)), -1, false, top, false);
    c := c + P(Pop(RAX));
    BinLevel(op, top - 1);
    Join(c, 1, BinCode(op), 0, false, top, false);
    c := c + BinCode(op);
    One(Pop(RDI), top - 1);
    Join(c, 1, P(Pop(RDI)), -1, false, top, false);
    Plainly(StoreRdi, top);
    Join(c + P(Pop(RDI)), 0, P(StoreRdi), 0, false, top, false);
  }

  lemma TwoLevel(fr: Frame, e: Expr, d: nat, top: nat)
    requires ExprOk(e, Lens(fr)) && (e.Comma? || e.Bin? || e.AndAlso? || e.OrElse?) && Pushes(e) <= top
    ensures Level(ExprCode(fr, e, d), 0, top, false)
    decreases e, 1
  {
    hide Level, P, Lens, BinCode, ShortCircuit;
    var b := ExprCode(fr, e.b, d);
    ExprLevel(fr, e.b, d, top);
    match e
    case Comma(a, _) =>
      ExprLevel(fr, a, d, top);
      Join(ExprCode(fr, a, d), 0, b, 0, false, top, false);
    case Bin(op, a, _) =>
      var v := ExprCode(fr, a, d + 1);
      One(Push(RAX), top);
      ExprLevel(fr, a, d + 1, top - 1);
      One(Pop(RDI), top - 1);
      BinLevel(op, top);
      Join(b, 0, P(Push(RAX)), 1, false, top, false);
      Join(b + P(Push(RAX)), 1, v, 0, false, top, false);
      Join(b + P(Push(RAX)) + v, 1, P(Pop(RDI)), -1, false, top, false);
      Join(b + P(Push(RAX)) + v + P(Pop(RDI)), 0, BinCode(op), 0, false, top, false);
    case AndAlso(a, _) =>
      ExprLevel(fr, a, d, top);
      CircuitLevel(ExprCode(fr, a, d), b, E, 1, 0, top);
    case OrElse(a, _) =>
      ExprLevel(fr, a, d, top);
      CircuitLevel(ExprCode(fr, a, d), b, NE, 0, 1, top);
  }

  lemma OtherLevel(fr: Frame, e: Expr, d: nat, top: nat)
    requires ExprOk(e, Lens(fr)) && (e.Num? || e.Zero? || e.Neg? || e.BitNot? || e.Not? || e.Call?) && Pushes(e) <= top
    ensures Level(ExprCode(fr, e, d), 0, top, false)
    decreases e, 1
  {
    hide Level, P, Lens, PopArgs, CallCode, Still;
    match e
    case Num(v) =>
      MovStill(RAX, v);
      Plainly(MovImm(RAX, v), top);
    case Zero(x) => ZeroLevel(fr, x, d, top);
    case Neg(a) =>
      ExprLevel(fr, a, d, top);
      OneMore(ExprCode(fr, a, d), NegRax, top);
    case BitNot(a) =>
      ExprLevel(fr, a, d, top);
      OneMore(ExprCode(fr, a, d), NotRax, top);
    case Not(a) =>
      ExprLevel(fr, a, d, top);
      OneMore(ExprCode(fr, a, d), TestRax, top);
      OneMore(ExprCode(fr, a, d) + P(TestRax), Setcc(E), top);
    case Call(name, args) =>
      var n := |args|;
      ArgsLevel(fr, args, d, top);
      PopsLevel(n, top - n);
      CallLevel(name, n, d, top);
      Join(ArgsCode(fr, args, d), n, PopArgs(n), 0 - n, false, top, false);
      Join(ArgsCode(fr, args, d) + PopArgs(n), 0, CallCode(name, n, d), 0, false, top, false);
  }

  lemma OneMore(c: seq<Sym>, i: Instr, top: nat)
    requires Level(c, 0, top, false) && i in {NegRax, NotRax, TestRax, Setcc(E), LoadRax}
    ensures Level(c + P(i), 0, top, false)
  {
    hide Level, P;
    Plainly(i, top);
    Join(c, 0, P(i), 0, false, top, false);
  }

  lemma ZeroLevel(fr: Frame, x: nat, d: nat, top: nat)
    requires ExprOk(Zero(x), Lens(fr))
    ensures Level(ExprCode(fr, Zero(x), d), 0, top, false)
  {
    hide Level, P, Lens;
    MovStill(RAX, 0);
    if !fr[x].isArray {
      Two(MovImm(RAX, 0), StLocal(fr[x].off, RAX), top);
    } else {
      var n := Wrap(8 * fr[x].len);
      MovStill(RCX, n);
      Two(LeaLocal(RDI, fr[x].off), MovImm(RAX, 0), top);
      Two(MovImm(RCX, n), RepStosb, top);
      var a, b := P(LeaLocal(RDI, fr[x].off)) + P(MovImm(RAX, 0)), P(MovImm(RCX, n)) + P(RepStosb);
      Join(a, 0, b, 0, false, top, false);
      assert a + b == a + P(MovImm(RCX, n)) + P(RepStosb);
    }
  }

  lemma ArgsLevel(fr: Frame, args: seq<Expr>, d: nat, top: nat)
    requires (forall i :: 0 <= i < |args| ==> ExprOk(args[i], Lens(fr))) && PushesAll(args) <= top
    ensures Level(ArgsCode(fr, args, d), |args|, top, false)
    decreases args, 0
  {
    hide Level, P, Lens;
    if args == [] {
      Nothing(top, false);
    } else {
      var last := |args| - 1;
      ArgsLevel(fr, args[..last], d, top);
      ExprLevel(fr, args[last], d + last, top - last);
      One(Push(RAX), top - last);
      var c, v := ArgsCode(fr, args[..last], d), ExprCode(fr, args[last], d + last);
      Join(c, last, v, 0, false, top, false);
      Join(c + v, last, P(Push(RAX)), 1, false, top, false);
    }
  }

  // ----- statements -----

  lemma ClosedLevel(c: seq<Sym>, net: int, top: int)
    requires Level(c, net, top, true) && Closed(c)
    ensures Level(c, net, top, false)
  {
    forall k | 0 <= k < |c| ensures Tracks(c, k, false) {
      assert Tracks(c, k, true);
      assert ClosedSym(c[k]);
    }
  }

  /** No deferred statement of these scopes pushes more than t in an expression. */
  ghost predicate Within(open: seq<seq<Stmt>>, t: nat) { forall i :: 0 <= i < |open| ==> DeepestAll(open[i]) <= t }

  /** A `return` keeps its value on the stack while the deferred statements run. */
  function Top(u: Unwind, t: nat): nat { if u.inDefer then t else t + 1 }

  lemma {:induction false} DeepestSnoc(l: seq<Stmt>, d: Stmt)
    ensures DeepestAll(l + [d]) == Max(DeepestAll(l), Deepest(d))
    decreases l
  {
    hide Deepest;
    if l == [] {
      assert l + [d] == [d] && [d][1..] == [];
    } else {
      assert (l + [d])[1..] == l[1..] + [d];
      DeepestSnoc(l[1..], d);
    }
  }

  lemma {:induction false} DeepestDefers(b: seq<Stmt>)
    ensures DeepestAll(DefersOf(b)) <= DeepestAll(b)
    decreases b
  {
    hide Deepest;
    if b != [] {
      DeepestDefers(b[1..]);
      if b[0].Defer? {
        DeepestSnoc(DefersOf(b[1..]), b[0].d);
        assert Deepest(b[0]) == Deepest(b[0].d) by { DeferDeepest(b[0].d); }
      }
    }
  }

  lemma DeferDeepest(d: Stmt)
    ensures Deepest(Defer(d)) == Deepest(d)
  {}

  lemma WithinMore(u: Unwind, d: Stmt, t: nat)
    requires Within(u.open, t) && Deepest(d) <= t
    ensures Within(Register(u, d).open, t) && Within(OpenScope(u).open, t)
  {
    hide Deepest;
    if u.open != [] {
      var l := [d] + u.open[0];
      assert l[1..] == u.open[0];
      assert DeepestAll(u.open[0]) <= t;
    }
    var o := OpenScope(u).open;
    assert forall i :: 0 < i < |o| ==> o[i] == u.open[i - 1];
  }

  lemma OptLevel(fr: Frame, e: Option<Expr>, missing: seq<Sym>, d: nat, top: nat)
    requires OptOk(e, Lens(fr)) && PushesOpt(e) <= top && Level(missing, 0, top, false)
    ensures Level(OptCode(fr, e, missing, d), 0, top, false)
  {
    hide ExprCode, Level;
    if e.Some? { ExprLevel(fr, e.value, d, top); }
  }

  /** The code of a statement leaves the stack as it was. */
  lemma StmtLevel(fr: Frame, s: Stmt, u: Unwind, d: nat, t: nat)
    requires StmtOk(s, Lens(fr), u.inDefer) && UnwindOk(u, Lens(fr)) && Deepest(s) <= t && Within(u.open, t)
    ensures Level(StmtCode(fr, s, u, d), 0, Top(u, t), true)
    decreases Weight(u) + Size(s), 2
  {
    hide Level, Within;
    match s
    case Block(b) =>
      DefersOk(b, Lens(fr), u.inDefer);
      DeepestDefers(b);
      WithinMore(u, Block([]), t);
      BlockLevel(fr, b, OpenScope(u), d, t);
      PendingLevel(fr, DefersOf(b), d, t);
      var p := PendingCode(fr, DefersOf(b), d);
      Looser(p, 0, t, false, Top(u, t), false);
      Join(BlockCode(fr, b, OpenScope(u), d), 0, p, 0, false, Top(u, t), true);
    case Expression(e) =>
      Nothing(t, false);
      OptLevel(fr, e, [], d, t);
      Looser(StmtCode(fr, s, u, d), 0, t, false, Top(u, t), true);
    case Return(e) => ReturnLevel(fr, e, u, d, t);
    case If(c, f, e) => IfLevel(fr, c, f, e, u, d, t);
    case For(_, _, _, _) => ForLevel(fr, s, u, d, t);
    case Break => LeavingLevel(fr, s, u, d, t);
    case Continue => LeavingLevel(fr, s, u, d, t);
    case Defer(_) => assert false;
  }

  lemma LeavingLevel(fr: Frame, s: Stmt, u: Unwind, d: nat, t: nat)
    requires StmtOk(s, Lens(fr), u.inDefer) && UnwindOk(u, Lens(fr)) && (s.Break? || s.Continue?) && Within(u.open, t)
    ensures Level(StmtCode(fr, s, u, d), 0, Top(u, t), true)
    decreases Weight(u) + 1, 0
  {
    hide Level, UnwindCode;
    WeightOfPart(u.open, |u.open| - u.outsideLoop);
    UnwindLevel(fr, Inner(u), d, t);
    var c := UnwindCode(fr, Inner(u), d);
    Looser(c, 0, t, false, Top(u, t), true);
    var l := if s.Break? then ToBreak else ToContinue;
    Waiting(l, Top(u, t));
    Join(c, 0, [SymJmp(l)], 0, true, Top(u, t), true);
  }

  lemma Waiting(l: Label, top: nat)
    requires l.ToBreak? || l.ToContinue?
    ensures Level([SymJmp(l)], 0, top, true)
  {
    var c := [SymJmp(l)];
    assert Depth(c, 0) == 0 && Depth(c, 1) == 0;
  }

  lemma ReturnLevel(fr: Frame, e: Option<Expr>, u: Unwind, d: nat, t: nat)
    requires StmtOk(Return(e), Lens(fr), u.inDefer) && UnwindOk(u, Lens(fr)) && PushesOpt(e) <= t && Within(u.open, t)
    ensures Level(StmtCode(fr, Return(e), u, d), 0, Top(u, t), true)
    decreases Weight(u) + 1, 0
  {
    hide Level, UnwindCode, OptCode, P, LeaveCode;
    MovStill(RAX, 0);
    Plainly(MovImm(RAX, 0), t);
    OptLevel(fr, e, P(MovImm(RAX, 0)), d, t);
    UnwindLevel(fr, u.open, d + 1, t);
    LeaveLevel(fr, u.open, d, t);
    var c := OptCode(fr, e, P(MovImm(RAX, 0)), d);
    Looser(c, 0, t, false, t + 1, false);
    Join(c, 0, LeaveCode(fr, u.open, d), 0, false, t + 1, false);
    Looser(c + LeaveCode(fr, u.open, d), 0, t + 1, false, t + 1, true);
  }

  lemma LeaveLevel(fr: Frame, open: seq<seq<Stmt>>, d: nat, t: nat)
    requires ScopesOk(open, Lens(fr)) && Level(UnwindCode(fr, open, d + 1), 0, t, false)
    ensures Level(LeaveCode(fr, open, d), 0, t + 1, false)
  {
    hide Level, UnwindCode, P;
    EndLevel(t + 1);
    var w := UnwindCode(fr, open, d + 1);
    var end := P(Leave) + P(Ret);
    if open == [] {
      assert LeaveCode(fr, open, d) == end by { assert [] + P(Leave) + P(Ret) == end; }
    } else {
      One(Push(RAX), t + 1);
      One(Pop(RAX), t);
      Join(P(Push(RAX)), 1, w, 0, false, t + 1, false);
      Join(P(Push(RAX)) + w, 1, P(Pop(RAX)), -1, false, t + 1, false);
      var c := P(Push(RAX)) + w + P(Pop(RAX));
      Join(c, 0, end, 0, false, t + 1, false);
      assert c + end == c + P(Leave) + P(Ret);
    }
  }

  lemma EndLevel(top: nat)
    ensures Level(P(Leave) + P(Ret), 0, top, false)
  {
    var c := P(Leave) + P(Ret);
    assert Depth(c, 0) == 0 && Depth(c, 1) == 0 && Depth(c, 2) == 0;
  }

  /** A condition, and the jump that is taken if it does not hold. */
  lemma TestLevel(fr: Frame, c: Expr, d: nat, top: nat)
    requires ExprOk(c, Lens(fr)) && Pushes(c) <= top
    ensures Level(ExprCode(fr, c, d) + P(TestRax), 0, top, true)
  {
    hide Level;
    ExprLevel(fr, c, d, top);
    OneMore(ExprCode(fr, c, d), TestRax, top);
    Looser(ExprCode(fr, c, d) + P(TestRax), 0, top, false, top, true);
  }

  lemma IfLevel(fr: Frame, c: Expr, s: Stmt, e: Option<Stmt>, u: Unwind, d: nat, t: nat)
    requires StmtOk(If(c, s, e), Lens(fr), u.inDefer) && UnwindOk(u, Lens(fr)) && Deepest(If(c, s, e)) <= t
        && Within(u.open, t)
    ensures Level(StmtCode(fr, If(c, s, e), u, d), 0, Top(u, t), true)
    decreases Weight(u) + Size(If(c, s, e)), 1
  {
    hide Level, ExprCode, ExprOk, Within, Branch, Skipping;
    var top := Top(u, t);
    TestLevel(fr, c, d, top);
    StmtLevel(fr, s, u, d, t);
    if e.None? {
      ThenLevel(ExprCode(fr, c, d), StmtCode(fr, s, u, d), top);
    } else {
      StmtLevel(fr, e.value, u, d, t);
      ElseLevel(ExprCode(fr, c, d), StmtCode(fr, s, u, d), StmtCode(fr, e.value, u, d), top);
    }
  }

  lemma ThenLevel(c: seq<Sym>, tc: seq<Sym>, top: nat)
    requires Level(c + P(TestRax), 0, top, true) && Level(tc, 0, top, true)
    ensures Level(Branch(c, Rel(|tc|)) + tc, 0, top, true)
  {
    hide Level, P;
    var x := c + P(TestRax);
    LastDepth(tc, 0, top, true);
    JumpIn(x, SymJcc(E, Rel(|tc|)), tc, top, true);
    assert Branch(c, Rel(|tc|)) + tc == x + [SymJcc(E, Rel(|tc|))] + tc;
  }

  lemma ElseLevel(c: seq<Sym>, tc: seq<Sym>, ec: seq<Sym>, top: nat)
    requires Level(c + P(TestRax), 0, top, true) && Level(tc, 0, top, true) && Level(ec, 0, top, true)
    ensures Level(Branch(c, Rel(|tc| + 1)) + (Skipping(tc, |ec|) + ec), 0, top, true)
  {
    hide Level, P;
    var x, y := c + P(TestRax), tc + [SymJmp(Rel(|ec|))] + ec;
    LastDepth(ec, 0, top, true);
    JumpIn(tc, SymJmp(Rel(|ec|)), ec, top, true);
    AfterJump(tc, SymJmp(Rel(|ec|)), ec, top);
    JumpIn(x, SymJcc(E, Rel(|tc| + 1)), y, top, true);
    assert Branch(c, Rel(|tc| + 1)) + (Skipping(tc, |ec|) + ec) == x + [SymJcc(E, Rel(|tc| + 1))] + y;
  }

  lemma AfterJump(x: seq<Sym>, j: Sym, y: seq<Sym>, top: int)
    requires Level(x, 0, top, true) && !j.Plain?
    ensures Depth(x + [j] + y, |x| + 1) == 0
  {
    DepthJoin(x + [j], y, |x| + 1);
    DepthJoin(x, [j], |x| + 1);
    SingleJump(j);
  }

  lemma ForLevel(fr: Frame, s: Stmt, u: Unwind, d: nat, t: nat)
    requires s.For? && StmtOk(s, Lens(fr), u.inDefer) && UnwindOk(u, Lens(fr)) && Deepest(s) <= t && Within(u.open, t)
    ensures Level(StmtCode(fr, s, u, d), 0, Top(u, t), true)
    decreases Weight(u) + Size(s), 1
  {
    hide Level, HeadCode, OptCode, LoopCode, Within;
    var top := Top(u, t);
    Nothing(top, false);
    HeadLevel(fr, s.test, d, top);
    OptLevel(fr, s.step, [], d, top);
    StmtLevel(fr, s.loop, EnterLoop(u), d, t);
    var head, body, next := HeadCode(fr, s.test, d), StmtCode(fr, s.loop, EnterLoop(u), d), OptCode(fr, s.step, [], d);
    LoopLevel(head, body, next, top);
    var code := LoopCode(head, body, next);
    if s.init.Some? {
      StmtLevel(fr, s.init.value, u, d, t);
      Join(StmtCode(fr, s.init.value, u, d), 0, code, 0, false, top, true);
    } else {
      assert [] + code == code;
      Looser(code, 0, top, false, top, true);
    }
  }

  lemma HeadLevel(fr: Frame, c: Option<Expr>, d: nat, top: nat)
    requires OptOk(c, Lens(fr)) && PushesOpt(c) <= top
    ensures Level(HeadCode(fr, c, d), 0, top, true)
  {
    hide Level, ExprCode, P;
    Nothing(top, true);
    if c.Some? {
      var x := ExprCode(fr, c.value, d) + P(TestRax);
      TestLevel(fr, c.value, d, top);
      WaitingIf(top);
      Join(x, 0, [SymJcc(E, ToBreak)], 0, true, top, true);
      assert HeadCode(fr, c, d) == x + [SymJcc(E, ToBreak)];
    }
  }

  lemma WaitingIf(top: nat)
    ensures Level([SymJcc(E, ToBreak)], 0, top, true)
  {
    var c := [SymJcc(E, ToBreak)];
    assert Depth(c, 0) == 0 && Depth(c, 1) == 0;
  }

  lemma LoopLevel(head: seq<Sym>, body: seq<Sym>, next: seq<Sym>, top: nat)
    requires Level(head, 0, top, true) && Level(body, 0, top, true) && Level(next, 0, top, false)
    ensures Level(LoopCode(head, body, next), 0, top, false)
  {
    hide Level;
    var x := head + body + next;
    Join(head, 0, body, 0, true, top, true);
    Join(head + body, 0, next, 0, false, top, true);
    LastDepth(head + body, 0, top, true);
    DepthJoin(head + body, next, |head| + |body|);
    JumpBack(x, top, true);
    var c := x + [SymJmp(Rel(-(|x| + 1)))];
    LastDepth(c, 0, top, true);
    DepthJoin(x, [SymJmp(Rel(-(|x| + 1)))], |head| + |body|);
    assert OpenLoop(head, body, next) == c;
    CloseLevel(c, |x| + 1, |head| + |body|, top);
  }

  lemma {:induction false} BlockLevel(fr: Frame, b: seq<Stmt>, u: Unwind, d: nat, t: nat)
    requires BlockOk(b, Lens(fr), u.inDefer) && UnwindOk(u, Lens(fr)) && DeepestAll(b) <= t && Within(u.open, t)
    ensures Level(BlockCode(fr, b, u, d), 0, Top(u, t), true)
    decreases Weight(u) + SizeAll(b), 0
  {
    hide Level, Within, Deepest;
    if b == [] {
      Nothing(Top(u, t), true);
    } else if b[0].Defer? {
      RegisterWeight(u, b[0].d);
      assert SizeAll(b) == 2 + Size(b[0].d) + SizeAll(b[1..]);
      DeferDeepest(b[0].d);
      WithinMore(u, b[0].d, t);
      BlockLevel(fr, b[1..], Register(u, b[0].d), d, t);
    } else {
      StmtLevel(fr, b[0], u, d, t);
      BlockLevel(fr, b[1..], u, d, t);
      Join(StmtCode(fr, b[0], u, d), 0, BlockCode(fr, b[1..], u, d), 0, true, Top(u, t), true);
    }
  }

  lemma {:induction false} PendingLevel(fr: Frame, l: seq<Stmt>, d: nat, t: nat)
    requires PendingOk(l, Lens(fr)) && DeepestAll(l) <= t
    ensures Level(PendingCode(fr, l, d), 0, t, false)
    decreases SizeAll(l), 0
  {
    hide Level, Deepest;
    if l == [] {
      Nothing(t, false);
    } else {
      StmtLevel(fr, l[0], DEFERRED, d, t);
      StmtClosed(fr, l[0], DEFERRED, d);
      ClosedLevel(StmtCode(fr, l[0], DEFERRED, d), 0, t);
      PendingLevel(fr, l[1..], d, t);
      Join(StmtCode(fr, l[0], DEFERRED, d), 0, PendingCode(fr, l[1..], d), 0, false, t, false);
    }
  }

  lemma {:induction false} UnwindLevel(fr: Frame, open: seq<seq<Stmt>>, d: nat, t: nat)
    requires ScopesOk(open, Lens(fr)) && Within(open, t)
    ensures Level(UnwindCode(fr, open, d), 0, t, false)
    decreases SizeOpen(open), 1
  {
    hide Level;
    if open == [] {
      Nothing(t, false);
    } else {
      PendingLevel(fr, open[0], d, t);
      UnwindLevel(fr, open[1..], d, t);
      Join(PendingCode(fr, open[0], d), 0, UnwindCode(fr, open[1..], d), 0, false, t, false);
    }
  }

  // ----- functions -----

  /** The words below the return address that a function of this kind needs: RBP, the frame, and what is
      pushed. */
  function Room(f: Fn): nat { 2 + f.size / 8 + Deepest(f.body) }

  lemma ClearLevel()
    ensures Level(ClearCode(), 0, 0, false)
  {
    var c := ClearCode();
    assert Depth(c, 0) == 0 && Depth(c, 1) == 0 && Depth(c, 2) == 0 && Depth(c, 3) == 0;
    assert Depth(c, 4) == 0 && Depth(c, 5) == 0;
    forall k {:trigger Depth(c, k)} | 0 <= k <= |c| ensures 0 <= Depth(c, k) <= 0 {}
  }

  lemma FrameLevel(size: nat)
    requires size % 8 == 0
    ensures Level(FrameCode(size), 1 + size / 8, 1 + size / 8, false)
  {
    hide Level, P, ClearCode;
    var n := size / 8;
    One(Push(RBP), 1 + n);
    Plainly(MovReg(RBP, RSP), n);
    Join(P(Push(RBP)), 1, P(MovReg(RBP, RSP)), 0, false, 1 + n, false);
    var a := P(Push(RBP)) + P(MovReg(RBP, RSP));
    if size == 0 {
      assert FrameCode(size) == a by { assert a + [] == a; }
    } else {
      One(SubRsp(size), n);
      Plainly(MovReg(R11, RSP), 0);
      Plainly(XorZero(R10), 0);
      ClearLevel();
      var b := P(SubRsp(size));
      Join(b, n, P(MovReg(R11, RSP)), 0, false, n, false);
      b := b + P(MovReg(R11, RSP));
      Join(b, n, P(XorZero(R10)), 0, false, n, false);
      b := b + P(XorZero(R10));
      Join(b, n, ClearCode(), 0, false, n, false);
      Join(a, 1, b + ClearCode(), n, false, 1 + n, false);
    }
  }

  lemma {:induction false} ParamLevel(fr: Frame, params: seq<nat>, n: nat, top: nat)
    requires n <= |params| <= 6 && forall i :: 0 <= i < |params| ==> params[i] < |fr|
    ensures Level(ParamCode(fr, params, n), 0, top, false)
    decreases n
  {
    hide Level, P;
    if n == 0 {
      Nothing(top, false);
    } else {
      var i := StLocal(fr[params[n - 1]].off, CallRegs()[n - 1]);
      ParamLevel(fr, params, n - 1, top);
      Plainly(i, top);
      Join(ParamCode(fr, params, n - 1), 0, P(i), 0, false, top, false);
    }
  }

  /** What a function executes before `leave; ret` at its end. */
  ghost function FnStart(f: Fn): seq<Sym>
    requires Parsed(f)
  {
    FrameCode(f.size) + (ParamCode(f.fr, f.params, |f.params|) + (StmtCode(f.fr, f.body, OUTERMOST, 0)
    + P(MovImm(RAX, 0))))
  }

  lemma FnLevel(f: Fn)
    requires FnOk(f)
    ensures FnCode(f) == FnStart(f) + (P(Leave) + P(Ret))
    ensures Level(FnStart(f), 1 + f.size / 8, Room(f), false) && Level(FnCode(f), 1 + f.size / 8, Room(f), false)
  {
    hide Level, P, FrameCode, ParamCode, StmtCode, StmtOk, Deepest;
    var n, t := 1 + f.size / 8, Deepest(f.body);
    var a, b, c := FrameCode(f.size), ParamCode(f.fr, f.params, |f.params|), StmtCode(f.fr, f.body, OUTERMOST, 0);
    var v, end := P(MovImm(RAX, 0)), P(Leave) + P(Ret);
    SizeWords(f);
    FrameLevel(f.size);
    Looser(a, n, n, false, Room(f), false);
    ParamLevel(f.fr, f.params, |f.params|, t + 1);
    StmtLevel(f.fr, f.body, OUTERMOST, 0, t);
    StmtClosed(f.fr, f.body, OUTERMOST, 0);
    ClosedLevel(c, 0, t + 1);
    MovStill(RAX, 0);
    Plainly(MovImm(RAX, 0), t + 1);
    EndLevel(t + 1);
    Join(c, 0, v, 0, false, t + 1, false);
    Join(b, 0, c + v, 0, false, t + 1, false);
    Join(a, n, b + (c + v), 0, false, Room(f), false);
    Join(a + (b + (c + v)), n, end, 0, false, Room(f), false);
    assert a + (b + (c + (v + end))) == a + (b + (c + v)) + end;
  }

  lemma SizeWords(f: Fn)
    requires FnOk(f)
    ensures f.size % 8 == 0
  {
    hide StmtOk;
  }

  // ----- the machine -----

  /** In the code `frag`, which stands at `at`, of a function that was entered with RSP at s: at the panic
      stub, at a `ret`, or at the depth of the place. */
  ghost predicate Standing(frag: seq<Sym>, at: int, pan: int, s: int, m: Mach) {
    && Ok(m)
    && (m.pc == pan
      || (at <= m.pc < at + |frag|
        && (frag[m.pc - at] == Plain(Ret) || m.regs[RSP] == s - 8 * Depth(frag, m.pc - at))))
  }

  lemma AdditiveRsp(i: Instr, m: Mach)
    requires Ok(m) && Additive(i)
    ensures Act(i, m).pc == m.pc + 1 && Act(i, m).regs[RSP] == m.regs[RSP]
  {
    hide Wrap;
  }

  lemma BitwiseRsp(i: Instr, m: Mach)
    requires Ok(m) && Bitwise(i)
    ensures Act(i, m).pc == m.pc + 1 && Act(i, m).regs[RSP] == m.regs[RSP]
  {
    hide Wrap, And, Or, Xor, Unsigned;
  }

  lemma MultiplicativeRsp(i: Instr, m: Mach)
    requires Ok(m) && Multiplicative(i)
    ensures Act(i, m).pc == m.pc + 1 && Act(i, m).regs[RSP] == m.regs[RSP]
  {
    hide Wrap;
  }

  lemma TargetedRsp(i: Instr, m: Mach)
    requires Ok(m) && Targeted(i) && Stacks(i)
    ensures Act(i, m).pc == m.pc + 1 && Act(i, m).regs[RSP] == m.regs[RSP] - 8 * Pushed(i)
  {
    hide SetReg, Wrap, SignExtend32, Get;
  }

  lemma OthersRsp(i: Instr, m: Mach)
    requires Ok(m) && m.status == Running && Stacks(i) && !Targeted(i) && !Arithmetic(i)
    requires !i.CallFn? && !i.Leave? && !i.Ret?
    ensures var k := Act(i, m); k.status == Running ==> k.pc == m.pc + 1 && k.regs[RSP] == m.regs[RSP] - 8 * Pushed(i)
  {
    hide SetReg, Wrap, TruncDiv, Unsigned, ZeroWords, Machine.Holds, Get;
  }

  /** Everything but a jump and the end of a function goes on to the next place. */
  lemma StepRsp(env: Env, i: Instr, m: Mach)
    requires Ok(m) && m.status == Running && Stacks(i) && !i.Leave? && !i.Ret?
    ensures var k := Step(env, i, m);
      k.status == Running ==> k.pc == m.pc + 1 && k.regs[RSP] == m.regs[RSP] - 8 * Pushed(i)
  {
    hide Act, AfterCall;
    if i.CallFn? {
      if i.nargs <= 6 {
        var a := env.world(i.name, CallArgs(m, i.nargs), m.trace);
        if a.Returns? {
          AfterReg(env.junk(i.name, i.nargs, m), a.v, a.trace, m, RSP);
          AfterPc(env.junk(i.name, i.nargs, m), a.v, a.trace, m);
        }
      }
    } else if Additive(i) {
      AdditiveRsp(i, m);
    } else if Bitwise(i) {
      BitwiseRsp(i, m);
    } else if Multiplicative(i) {
      MultiplicativeRsp(i, m);
    } else if Targeted(i) {
      TargetedRsp(i, m);
    } else {
      OthersRsp(i, m);
    }
  }

  lemma AfterPc(j: Junk, v: int, t: Trace, m: Mach)
    requires Ok(m)
    ensures AfterCall(j, v, t, m).pc == m.pc + 1
  {}

  lemma JumpStep(env: Env, i: Instr, m: Mach)
    requires Ok(m) && m.status == Running && (i.Jmp? || i.Jcc?)
    ensures var k := Step(env, i, m);
      k.status == Running ==> (k.pc == m.pc + 1 + i.rel || (i.Jcc? && k.pc == m.pc + 1)) && k.regs == m.regs
  {
    hide Machine.Holds;
  }

  lemma EndStep(env: Env, m: Mach)
    requires Ok(m) && m.status == Running
    ensures Step(env, Ret, m).status != Running && Step(env, Leave, m).pc == m.pc + 1
  {}

  /** Wherever a run of a function comes to, it is at the depth of the place. */
  lemma StandingStep(env: Env, c: seq<Instr>, f: Fn, at: int, tg: Targets, s: int, m: Mach)
    requires FnOk(f) && CodeAt(c, at, FnCode(f), tg) && Standing(FnCode(f), at, tg.pan, s, m)
    requires m.status == Running && m.pc != tg.pan
    ensures 0 <= m.pc < |c|
    ensures var k := Step(env, c[m.pc], m); k.status == Running ==> Standing(FnCode(f), at, tg.pan, s, k)
  {
    hide Step, Level, Parsed, FnStart, FnCode;
    FnLevel(f);
    var frag, k := FnCode(f), m.pc - at;
    var i := c[m.pc];
    assert c[at + k] == Fix(frag[k], at + k, tg);
    PlaceTracks(f, frag, FnStart(f), k);
    if !frag[k].Plain? {
      StandingJump(env, frag, at, tg, s, m);
    } else if i.Ret? || i.Leave? {
      EndStep(env, m);
    } else {
      StepRsp(env, i, m);
    }
  }

  lemma StandingJump(env: Env, frag: seq<Sym>, at: int, tg: Targets, s: int, m: Mach)
    requires Standing(frag, at, tg.pan, s, m) && m.status == Running && m.pc != tg.pan && !frag[m.pc - at].Plain?
    requires var k := m.pc - at;
      && k + 1 < |frag| && Depth(frag, k + 1) == Depth(frag, k)
      && (LabelOf(frag[k]).ToPanic?
        || (LabelOf(frag[k]).Rel? && 0 <= k + 1 + LabelOf(frag[k]).d < |frag|
          && Depth(frag, k + 1 + LabelOf(frag[k]).d) == Depth(frag, k)))
    ensures var k := Step(env, Fix(frag[m.pc - at], m.pc, tg), m);
      k.status == Running ==> Standing(frag, at, tg.pan, s, k)
  {
    hide Step;
    JumpStep(env, Fix(frag[m.pc - at], m.pc, tg), m);
  }

  /** Before the end of a function there is always a next place, and jumps do not go behind it. */
  lemma PlaceTracks(f: Fn, frag: seq<Sym>, start: seq<Sym>, k: nat)
    requires frag == start + (P(Leave) + P(Ret)) && k < |frag|
    requires Level(start, 1 + f.size / 8, Room(f), false) && Level(frag, 1 + f.size / 8, Room(f), false)
    ensures frag[k] == Plain(Ret) || k + 1 < |frag|
    ensures frag[k].Plain? ==> Stacks(frag[k].i) && (frag[k].i.Leave? ==> frag[k + 1] == Plain(Ret))
    ensures frag[k] != Plain(Ret) ==> Depth(frag, k + 1) == Depth(frag, k) + Delta(frag[k])
    ensures !frag[k].Plain? && !LabelOf(frag[k]).ToPanic? ==>
      && LabelOf(frag[k]).Rel? && 0 <= k + 1 + LabelOf(frag[k]).d < |frag|
      && Depth(frag, k + 1 + LabelOf(frag[k]).d) == Depth(frag, k)
  {
    var end := P(Leave) + P(Ret);
    assert frag[|start|] == Plain(Leave) && frag[|start| + 1] == Plain(Ret);
    assert Tracks(frag, k, false);
    if k < |start| {
      assert frag[k] == start[k];
      assert Tracks(start, k, false);
    }
  }
}
