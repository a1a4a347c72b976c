/** The scalar subset of the language that `src/codegen.c` compiles: 64-bit signed locals, local
    arrays of them, calls, structured control flow and block-scoped `defer`. */
module Source {
  import opened Common
  import opened Bits

  /** The unsigned reading of a machine word. */
  function Unsigned(x: int): nat { x % 0x1_0000_0000_0000_0000 }

  // ----- syntax -----

  datatype BinOp = Add | Sub | Mul | Div | Mod | BitAnd | BitOr | BitXor | ShiftLeft | ShiftRight | Eq | Ne | Lt | Le

  /** Locals are numbered; an array local is indexed. */
  datatype Place = Local(x: nat) | Element(x: nat, index: Expr)

  datatype Expr =
    | Num(v: I64)
    | Load(p: Place)
    | Assign(p: Place, e: Expr)
    | OpAssign(op: BinOp, p: Place, e: Expr)
    | Zero(x: nat)
    | Comma(a: Expr, b: Expr)
    | Neg(e: Expr)
    | BitNot(e: Expr)
    | Not(e: Expr)
    | Bin(op: BinOp, a: Expr, b: Expr)
    | AndAlso(a: Expr, b: Expr)
    | OrElse(a: Expr, b: Expr)
    | Call(name: string, args: seq<Expr>)

  datatype Stmt =
    | Block(body: seq<Stmt>)
    | Defer(d: Stmt)
    | Expression(e: Option<Expr>)
    | Return(e: Option<Expr>)
    | If(cond: Expr, thn: Stmt, els: Option<Stmt>)
    | For(init: Option<Stmt>, test: Option<Expr>, step: Option<Expr>, loop: Stmt)
    | Break
    | Continue

  // ----- meaning of expressions -----

  /** A call into the outside world. */
  datatype Event = Called(name: string, args: seq<int>, result: int)

  type Trace = seq<Event>

  /** What becomes of a call: it returns, with the trace as it is then; or it ends in a fault. */
  datatype Answer = Returns(v: int, trace: Trace) | Stops(f: Fault, trace: Trace)

  /** What calls to the functions outside this one do. */
  type World = (string, seq<int>, Trace) -> Answer

  /** Every local is a sequence of words: one for a scalar. */
  datatype State = State(vars: seq<seq<I64>>, trace: Trace)

  /** NoReturn: a call of which nothing is known, such as one that does not come back. */
  datatype Fault = DivideError | IndexPanic | NoReturn

  datatype Result = Val(v: I64, st: State) | Stop(f: Fault, trace: Trace)

  /** C's truncating division. */
  function TruncDiv(a: int, b: int): int
    requires b != 0
  {
    var q := (if a < 0 then -a else a) / (if b < 0 then -b else b);
    if (a < 0) == (b < 0) then q else -q
  }

  function Minus(x: int): I64 { Wrap(-x) }

  function Complement(x: int): I64 { Wrap(-x - 1) }

  function Truth(b: bool): I64 { if b then 1 else 0 }

  /** A division traps on zero and on the one quotient that does not fit. */
  predicate DivTraps(a: I64, b: I64) { b == 0 || (a == -0x8000_0000_0000_0000 && b == -1) }

  function Apply(op: BinOp, a: I64, b: I64): Option<I64> {
    match op
    case Add => Some(Wrap(a + b))
    case Sub => Some(Wrap(a - b))
    case Mul => Some(Wrap(a * b))
    case Div => if DivTraps(a, b) then None else Some(Wrap(TruncDiv(a, b)))
    case Mod => if DivTraps(a, b) then None else Some(Wrap(a - TruncDiv(a, b) * b))
    case BitAnd => Some(Wrap(And(Unsigned(a), Unsigned(b))))
    case BitOr => Some(Wrap(Or(Unsigned(a), Unsigned(b))))
    case BitXor => Some(Wrap(Xor(Unsigned(a), Unsigned(b))))
    case ShiftLeft => Some(Wrap(a * Pow2(b % 64)))
    case ShiftRight => Some(Wrap(a / Pow2(b % 64)))
    case Eq => Some(Truth(a == b))
    case Ne => Some(Truth(a != b))
    case Lt => Some(Truth(a < b))
    case Le => Some(Truth(a <= b))
  }

  predicate Shaped(st: State, lens: seq<nat>) {
    |st.vars| == |lens| && forall x :: 0 <= x < |lens| ==> |st.vars[x]| == lens[x]
  }

  predicate PlaceOk(p: Place, lens: seq<nat>) {
    match p
    case Local(x) => x < |lens| && lens[x] == 1
    case Element(x, i) => x < |lens| && ExprOk(i, lens)
  }

  /** Every local exists, scalars are used as scalars, calls fit the six argument registers. */
  predicate ExprOk(e: Expr, lens: seq<nat>) {
    match e
    case Num(_) => true
    case Load(p) => PlaceOk(p, lens)
    case Assign(p, e) => PlaceOk(p, lens) && ExprOk(e, lens)
    case OpAssign(_, p, e) => PlaceOk(p, lens) && ExprOk(e, lens)
    case Zero(x) => x < |lens|
    case Comma(a, b) => ExprOk(a, lens) && ExprOk(b, lens)
    case Neg(e) => ExprOk(e, lens)
    case BitNot(e) => ExprOk(e, lens)
    case Not(e) => ExprOk(e, lens)
    case Bin(_, a, b) => ExprOk(a, lens) && ExprOk(b, lens)
    case AndAlso(a, b) => ExprOk(a, lens) && ExprOk(b, lens)
    case OrElse(a, b) => ExprOk(a, lens) && ExprOk(b, lens)
    case Call(_, args) => |args| <= 6 && forall i :: 0 <= i < |args| ==> ExprOk(args[i], lens)
  }

  function Put(st: State, x: nat, i: nat, v: I64): (r: State)
    requires x < |st.vars| && i < |st.vars[x]|
  {
    var words: seq<I64> := st.vars[x][i := v];
    st.(vars := st.vars[x := words])
  }

  function Zeros(n: nat): (z: seq<I64>)
    ensures |z| == n && forall i :: 0 <= i < n ==> z[i] == 0
  {
    if n == 0 then [] else Zeros(n - 1) + [0]
  }

  datatype Where = At(i: nat, st: State) | Nowhere(f: Fault, trace: Trace)

  /** Which word a place denotes; the index is evaluated and checked. */
  function Find(o: World, p: Place, st: State, lens: seq<nat>): (r: Where)
    requires PlaceOk(p, lens) && Shaped(st, lens)
    ensures r.At? ==> Shaped(r.st, lens) && r.i < lens[p.x]
    decreases p, 1
  {
    match p
    case Local(_) => At(0, st)
    case Element(x, i) =>
      match Eval(o, i, st, lens)
      case Stop(f, t) => Nowhere(f, t)
      case Val(v, st1) => if 0 <= v < lens[x] then At(v, st1) else Nowhere(IndexPanic, st1.trace)
  }

  /** Right operand first, place before value, old value before the operand of `op=`. */
  function Eval(o: World, e: Expr, st: State, lens: seq<nat>): (r: Result)
    requires ExprOk(e, lens) && Shaped(st, lens)
    ensures r.Val? ==> Shaped(r.st, lens)
    decreases e, 1
  {
    match e
    case Num(v) => Val(v, st)
    case Load(p) => (
      match Find(o, p, st, lens)
      case Nowhere(f, t) => Stop(f, t)
      case At(i, st1) => Val(st1.vars[p.x][i], st1))
    case Assign(p, rhs) => (
      match Find(o, p, st, lens)
      case Nowhere(f, t) => Stop(f, t)
      case At(i, st1) =>
        match Eval(o, rhs, st1, lens)
        case Stop(f, t) => Stop(f, t)
        case Val(v, st2) => Val(v, Put(st2, p.x, i, v)))
    case OpAssign(op, p, rhs) => (
      match Find(o, p, st, lens)
      case Nowhere(f, t) => Stop(f, t)
      case At(i, st1) =>
        match Eval(o, rhs, st1, lens)
        case Stop(f, t) => Stop(f, t)
        case Val(v, st2) =>
          match Apply(op, st1.vars[p.x][i], v)
          case None => Stop(DivideError, st2.trace)
          case Some(w) => Val(w, Put(st2, p.x, i, w)))
    case Zero(x) => Val(0, st.(vars := st.vars[x := Zeros(lens[x])]))
    case Comma(a, b) => (
      match Eval(o, a, st, lens)
      case Stop(f, t) => Stop(f, t)
      case Val(_, st1) => Eval(o, b, st1, lens))
    case Neg(a) => (
      match Eval(o, a, st, lens)
      case Stop(f, t) => Stop(f, t)
      case Val(v, st1) => Val(Minus(v), st1))
    case BitNot(a) => (
      match Eval(o, a, st, lens)
      case Stop(f, t) => Stop(f, t)
      case Val(v, st1) => Val(Complement(v), st1))
    case Not(a) => (
      match Eval(o, a, st, lens)
      case Stop(f, t) => Stop(f, t)
      case Val(v, st1) => Val(Truth(v == 0), st1))
    case Bin(op, a, b) => (
      match Eval(o, b, st, lens)
      case Stop(f, t) => Stop(f, t)
      case Val(vb, st1) =>
        match Eval(o, a, st1, lens)
        case Stop(f, t) => Stop(f, t)
        case Val(va, st2) =>
          match Apply(op, va, vb)
          case None => Stop(DivideError, st2.trace)
          case Some(w) => Val(w, st2))
    case AndAlso(a, b) => (
      match Eval(o, a, st, lens)
      case Stop(f, t) => Stop(f, t)
      case Val(va, st1) =>
        if va == 0 then Val(0, st1) else
          match Eval(o, b, st1, lens)
          case Stop(f, t) => Stop(f, t)
          case Val(vb, st2) => Val(Truth(vb != 0), st2))
    case OrElse(a, b) => (
      match Eval(o, a, st, lens)
      case Stop(f, t) => Stop(f, t)
      case Val(va, st1) =>
        if va != 0 then Val(1, st1) else
          match Eval(o, b, st1, lens)
          case Stop(f, t) => Stop(f, t)
          case Val(vb, st2) => Val(Truth(vb != 0), st2))
    case Call(name, args) => (
      match EvalArgs(o, args, st, lens)
      case NoArgs(f, t) => Stop(f, t)
      case Args(vs, st1) => Answered(o, name, vs, st1))
  }

  /** The state after a call. */
  function Answered(o: World, name: string, vs: seq<I64>, st: State): Result {
    match o(name, vs, st.trace)
    case Returns(v, t) => Val(Wrap(v), st.(trace := t))
    case Stops(f, t) => Stop(f, t)
  }

  datatype ArgsResult = Args(vs: seq<I64>, st: State) | NoArgs(f: Fault, trace: Trace)

  /** Arguments are evaluated left to right. */
  function EvalArgs(o: World, args: seq<Expr>, st: State, lens: seq<nat>): (r: ArgsResult)
    requires (forall i :: 0 <= i < |args| ==> ExprOk(args[i], lens)) && Shaped(st, lens)
    ensures r.Args? ==> Shaped(r.st, lens) && |r.vs| == |args|
    decreases args, 0
  {
    if args == [] then Args([], st)
    else
      var last := |args| - 1;
      match EvalArgs(o, args[..last], st, lens)
      case NoArgs(f, t) => NoArgs(f, t)
      case Args(vs, st1) =>
        match Eval(o, args[last], st1, lens)
        case Stop(f, t) => NoArgs(f, t)
        case Val(v, st2) => Args(vs + [v], st2)
  }

  // ----- meaning of statements -----

  /** How a statement is left. */
  datatype Exit = Normal | Broke | Continued | Returned(v: I64)

  datatype Outcome = Done(x: Exit, st: State) | Fault(f: Fault, trace: Trace) | Timeout

  function Size(s: Stmt): nat {
    match s
    case Block(b) => 1 + SizeAll(b)
    case Defer(d) => 1 + Size(d)
    case If(_, t, e) => 1 + Size(t) + (if e.Some? then Size(e.value) else 0)
    case For(i, _, _, b) => 1 + Size(b) + (if i.Some? then Size(i.value) else 0)
    case _ => 1
  }

  function SizeAll(b: seq<Stmt>): nat {
    if b == [] then 0 else 1 + Size(b[0]) + SizeAll(b[1..])
  }

  predicate OptOk(e: Option<Expr>, lens: seq<nat>) { e.None? || ExprOk(e.value, lens) }

  /** `break` and `continue` stand only inside loops; a deferred statement has to have its own. */
  predicate JumpsInside(s: Stmt, inLoop: bool) {
    match s
    case Block(b) => forall i :: 0 <= i < |b| ==> JumpsInside(b[i], inLoop)
    case Defer(d) => JumpsInside(d, false)
    case If(_, t, e) => JumpsInside(t, inLoop) && (e.Some? ==> JumpsInside(e.value, inLoop))
    case For(i, _, _, b) => JumpsInside(b, true) && (i.Some? ==> JumpsInside(i.value, inLoop))
    case Break => inLoop
    case Continue => inLoop
    case _ => true
  }

  /** `defer` stands only directly inside a block, and a deferred statement is not left by a jump. */
  predicate StmtOk(s: Stmt, lens: seq<nat>, inDefer: bool)
    decreases Size(s)
  {
    match s
    case Block(b) => BlockOk(b, lens, inDefer)
    case Defer(_) => false
    case Expression(e) => OptOk(e, lens)
    case Return(e) => !inDefer && OptOk(e, lens)
    case If(c, t, e) => ExprOk(c, lens) && StmtOk(t, lens, inDefer) && (e.Some? ==> StmtOk(e.value, lens, inDefer))
    case For(i, c, st, b) =>
      && (i.Some? ==> StmtOk(i.value, lens, inDefer))
      && OptOk(c, lens) && OptOk(st, lens) && StmtOk(b, lens, inDefer)
    case Break => true
    case Continue => true
  }

  predicate BlockOk(b: seq<Stmt>, lens: seq<nat>, inDefer: bool)
    decreases SizeAll(b)
  {
    b != [] ==>
      && (if b[0].Defer? then assert Size(b[0]) == 1 + Size(b[0].d); Deferrable(b[0].d, lens)
          else StmtOk(b[0], lens, inDefer))
      && BlockOk(b[1..], lens, inDefer)
  }

  /** A statement that can be deferred. */
  predicate Deferrable(d: Stmt, lens: seq<nat>)
    decreases Size(d) + 1
  {
    StmtOk(d, lens, true) && JumpsInside(d, false)
  }

  /** Deferred statements waiting in a scope, the most recent first. */
  predicate PendingOk(l: seq<Stmt>, lens: seq<nat>)
    decreases SizeAll(l)
  {
    l != [] ==> Deferrable(l[0], lens) && PendingOk(l[1..], lens)
  }

  /** A block's run up to its last statement or an early exit, and the defers it registered. */
  datatype BlockRun = BlockRun(out: Outcome, pending: seq<Stmt>)

  function Exec(o: World, s: Stmt, st: State, lens: seq<nat>, inDefer: bool, fuel: nat): (r: Outcome)
    requires StmtOk(s, lens, inDefer) && Shaped(st, lens)
    ensures r.Done? ==> Shaped(r.st, lens)
    decreases fuel, Size(s), 1
  {
    match s
    case Block(b) => (
      var run := ExecBlock(o, b, st, lens, inDefer, fuel);
      match run.out
      case Done(x, st1) => (
        match RunPending(o, run.pending, st1, lens, fuel)
        case Done(Normal, st2) => Done(x, st2)
        case other => other)
      case other => other)
    case Expression(e) => (
      match EvalOpt(o, e, 0, st, lens)
      case Stop(f, t) => Fault(f, t)
      case Val(_, st1) => Done(Normal, st1))
    case Return(e) => (
      match EvalOpt(o, e, 0, st, lens)
      case Stop(f, t) => Fault(f, t)
      case Val(v, st1) => Done(Returned(v), st1))
    case If(c, t, e) => (
      match Eval(o, c, st, lens)
      case Stop(f, t) => Fault(f, t)
      case Val(v, st1) =>
        if v != 0 then Exec(o, t, st1, lens, inDefer, fuel)
        else if e.Some? then Exec(o, e.value, st1, lens, inDefer, fuel)
        else Done(Normal, st1))
    case For(i, c, step, b) => (
      if i.None? then Loop(o, c, step, b, st, lens, inDefer, fuel)
      else
        match Exec(o, i.value, st, lens, inDefer, fuel)
        case Done(Normal, st1) => Loop(o, c, step, b, st1, lens, inDefer, fuel)
        case other => other)
    case Break => Done(Broke, st)
    case Continue => Done(Continued, st)
  }

  /** A missing expression counts as `missing`. */
  function EvalOpt(o: World, e: Option<Expr>, missing: I64, st: State, lens: seq<nat>): (r: Result)
    requires OptOk(e, lens) && Shaped(st, lens)
    ensures r.Val? ==> Shaped(r.st, lens)
  {
    if e.None? then Val(missing, st) else Eval(o, e.value, st, lens)
  }

  function ExecBlock(o: World, b: seq<Stmt>, st: State, lens: seq<nat>, inDefer: bool, fuel: nat): (r: BlockRun)
    requires BlockOk(b, lens, inDefer) && Shaped(st, lens)
    ensures r.out.Done? ==> Shaped(r.out.st, lens)
    ensures PendingOk(r.pending, lens) && SizeAll(r.pending) <= SizeAll(b)
    decreases fuel, SizeAll(b), 0
  {
    if b == [] then BlockRun(Done(Normal, st), [])
    else if b[0].Defer? then
      var r := ExecBlock(o, b[1..], st, lens, inDefer, fuel);
      PendingSnoc(r.pending, b[0].d, lens);
      BlockRun(r.out, r.pending + [b[0].d])
    else
      match Exec(o, b[0], st, lens, inDefer, fuel)
      case Done(Normal, st1) => ExecBlock(o, b[1..], st1, lens, inDefer, fuel)
      case other => BlockRun(other, [])
  }

  lemma PendingSnoc(l: seq<Stmt>, d: Stmt, lens: seq<nat>)
    requires PendingOk(l, lens) && Deferrable(d, lens)
    ensures PendingOk(l + [d], lens) && SizeAll(l + [d]) == SizeAll(l) + 1 + Size(d)
    decreases l
  {
    if l != [] {
      assert (l + [d])[1..] == l[1..] + [d];
      PendingSnoc(l[1..], d, lens);
    }
  }

  /** Runs deferred statements in the given order. */
  function RunPending(o: World, l: seq<Stmt>, st: State, lens: seq<nat>, fuel: nat): (r: Outcome)
    requires PendingOk(l, lens) && Shaped(st, lens)
    ensures r.Done? ==> Shaped(r.st, lens)
    decreases fuel, SizeAll(l), 0
  {
    if l == [] then Done(Normal, st)
    else
      match Exec(o, l[0], st, lens, true, fuel)
      case Done(Normal, st1) => RunPending(o, l[1..], st1, lens, fuel)
      case other => other
  }

  function Loop(o: World, test: Option<Expr>, step: Option<Expr>, body: Stmt, st: State, lens: seq<nat>,
      inDefer: bool, fuel: nat): (r: Outcome)
    requires OptOk(test, lens) && OptOk(step, lens) && StmtOk(body, lens, inDefer) && Shaped(st, lens)
    ensures r.Done? ==> Shaped(r.st, lens)
    decreases fuel, 0, 0
  {
    if fuel == 0 then Timeout
    else
      match EvalOpt(o, test, 1, st, lens)
      case Stop(f, t) => Fault(f, t)
      case Val(v, st1) =>
        if v == 0 then Done(Normal, st1)
        else
          match Exec(o, body, st1, lens, inDefer, fuel - 1)
          case Done(Broke, st2) => Done(Normal, st2)
          case Done(Returned(w), st2) => Done(Returned(w), st2)
          case Done(_, st2) => (
            match EvalOpt(o, step, 0, st2, lens)
            case Stop(f, t) => Fault(f, t)
            case Val(_, st3) => Loop(o, test, step, body, st3, lens, inDefer, fuel - 1))
          case other => other
  }
}
