/** A small imperative language with wrapping 64-bit integers, arrays, pointers to variables, calls,
    loops and `defer`, in which an array access is checked unless it is marked. */
module Checked {
  import opened Common
  import Source
  import opened Bits

  datatype Expr =
    | Num(v: I64)
    | Var(x: nat)
    | Zero(x: nat)                                  // a declaration without a value; as a target, one with a value
    | Index(a: nat, i: Expr, nobounds: bool)
    | Deref(p: Expr)
    | Addr(x: nat)
    | Bin(op: Source.BinOp, l: Expr, r: Expr)
    | Logic(isAnd: bool, l: Expr, r: Expr)
    | Assign(l: Expr, r: Expr)
    | OpAssign(op: Source.BinOp, l: Expr, r: Expr)
    | Call(args: seq<Expr>)

  datatype Stmt =
    | Block(b: seq<Stmt>)
    | Do(e: Expr)
    | If(c: Expr, t: Stmt, f: Option<Stmt>)
    | For(init: Option<Stmt>, cond: Option<Expr>, step: Option<Expr>, body: Stmt)
    | Defer(d: Stmt)
    | Return(e: Expr)
    | Break
    | Continue

  /** Wild: an unchecked access outside its array. */
  datatype Fault = Panic | Wild | Trap | BadPointer | NotAPlace

  type Trace = seq<seq<I64>>

  datatype State = State(vars: map<nat, I64>, elems: map<(nat, nat), I64>, trace: Trace)

  /** What a call returns, and what it leaves in the variables it can reach. */
  datatype Answer = Answer(v: I64, vars: nat -> I64)

  /** The declarations: array lengths, globals, the variables some pointer may point to. */
  datatype Cx = Cx(len: nat -> nat, globals: set<nat>, taken: set<nat>, world: (seq<I64>, State) -> Answer)

  datatype Loc = VarLoc(x: nat) | ElemLoc(a: nat, i: nat)

  datatype Found = Found(l: Loc, st: State) | Lost(f: Fault)

  datatype Result = Val(v: I64, st: State) | Err(f: Fault)

  datatype Args = Args(vs: seq<I64>, st: State) | NoArgs(f: Fault)

  function Get(st: State, x: nat): I64 { if x in st.vars then st.vars[x] else 0 }

  function Load(st: State, l: Loc): I64 {
    match l
    case VarLoc(x) => Get(st, x)
    case ElemLoc(a, i) => if (a, i) in st.elems then st.elems[(a, i)] else 0
  }

  function Store(st: State, l: Loc, v: I64): State {
    match l
    case VarLoc(x) => st.(vars := st.vars[x := v])
    case ElemLoc(a, i) => st.(elems := st.elems[(a, i) := v])
  }

  /** A call may change the globals and whatever has had its address taken. */
  function AfterCall(cx: Cx, vs: seq<I64>, st: State): State {
    var ans := cx.world(vs, st);
    State(map x | x in st.vars.Keys + cx.globals + cx.taken :: if x in cx.globals + cx.taken then ans.vars(x)
        else st.vars[x],
          st.elems, st.trace + [vs])
  }

  function Locate(cx: Cx, e: Expr, st: State): Found
    decreases e, 0
  {
    match e
    case Var(x) => Found(VarLoc(x), st)
    case Zero(x) => Found(VarLoc(x), st)
    case Index(a, i, nobounds) => (
      match Eval(cx, i, st)
      case Err(f) => Lost(f)
      case Val(v, st1) => if 0 <= v < cx.len(a) then Found(ElemLoc(a, v), st1)
          else Lost(if nobounds then Wild else Panic))
    case Deref(p) => (
      match Eval(cx, p, st)
      case Err(f) => Lost(f)
      case Val(v, st1) => if 0 <= v && v in cx.taken then Found(VarLoc(v), st1) else Lost(BadPointer))
    case _ => Lost(NotAPlace)
  }

  function Eval(cx: Cx, e: Expr, st: State): Result
    decreases e, 1
  {
    match e
    case Num(v) => Val(v, st)
    case Var(x) => Val(Get(st, x), st)
    case Zero(x) => Val(0, Store(st, VarLoc(x), 0))
    case Index(_, _, _) => (
      match Locate(cx, e, st)
      case Lost(f) => Err(f)
      case Found(l, st1) => Val(Load(st1, l), st1))
    case Deref(_) => (
      match Locate(cx, e, st)
      case Lost(f) => Err(f)
      case Found(l, st1) => Val(Load(st1, l), st1))
    case Addr(x) => Val(Wrap(x), st)
    case Bin(op, l, r) => (
      match Eval(cx, r, st)
      case Err(f) => Err(f)
      case Val(vr, st1) =>
        match Eval(cx, l, st1)
        case Err(f) => Err(f)
        case Val(vl, st2) => if Source.Apply(op, vl, vr).None? then Err(Trap)
            else Val(Source.Apply(op, vl, vr).value, st2))
    case Logic(isAnd, l, r) => (
      match Eval(cx, l, st)
      case Err(f) => Err(f)
      case Val(v, st1) => if (v == 0) == isAnd then Val(if isAnd then 0 else 1, st1) else
        match Eval(cx, r, st1)
        case Err(f) => Err(f)
        case Val(w, st2) => Val(if w == 0 then 0 else 1, st2))
    case Assign(l, r) => (
      match Locate(cx, l, st)
      case Lost(f) => Err(f)
      case Found(loc, st1) =>
        match Eval(cx, r, st1)
        case Err(f) => Err(f)
        case Val(v, st2) => Val(v, Store(st2, loc, v)))
    case OpAssign(op, l, r) => (
      match Locate(cx, l, st)
      case Lost(f) => Err(f)
      case Found(loc, st1) =>
        match Eval(cx, r, st1)
        case Err(f) => Err(f)
        case Val(v, st2) =>
          var w := Source.Apply(op, Load(st1, loc), v);
          if w.None? then Err(Trap) else Val(w.value, Store(st2, loc, w.value)))
    case Call(args) => (
      match EvalArgs(cx, args, st)
      case NoArgs(f) => Err(f)
      case Args(vs, st1) => Val(cx.world(vs, st1).v, AfterCall(cx, vs, st1)))
  }

  function EvalArgs(cx: Cx, args: seq<Expr>, st: State): Args
    decreases args, 0
  {
    if args == [] then Args([], st)
    else
      match Eval(cx, args[0], st)
      case Err(f) => NoArgs(f)
      case Val(v, st1) =>
        match EvalArgs(cx, args[1..], st1)
        case NoArgs(f) => NoArgs(f)
        case Args(vs, st2) => Args([v] + vs, st2)
  }

  datatype Exit = Normal | Broke | Continued | Returned(v: I64)

  datatype Outcome = Done(x: Exit, st: State) | Failed(f: Fault) | Timeout

  function Exec(cx: Cx, s: Stmt, st: State, fuel: nat): Outcome
    decreases fuel, s, 1
  {
    match s
    case Block(b) => ExecSeq(cx, b, st, fuel)
    case Do(e) => (
      match Eval(cx, e, st)
      case Err(f) => Failed(f)
      case Val(_, st1) => Done(Normal, st1))
    case If(c, t, f) => (
      match Eval(cx, c, st)
      case Err(e) => Failed(e)
      case Val(v, st1) => if v != 0 then Exec(cx, t, st1, fuel) else if f.Some? then Exec(cx, f.value, st1, fuel)
          else Done(Normal, st1))
    case For(init, cond, step, body) => (
      if init.None? then Loop(cx, cond, step, body, st, fuel)
      else
        match Exec(cx, init.value, st, fuel)
        case Done(Normal, st1) => Loop(cx, cond, step, body, st1, fuel)
        case other => other)
    case Defer(d) => Exec(cx, d, st, fuel)   // as the last thing its block does; see ExecSeq
    case Return(e) => (
      match Eval(cx, e, st)
      case Err(f) => Failed(f)
      case Val(v, st1) => Done(Returned(v), st1))
    case Break => Done(Broke, st)
    case Continue => Done(Continued, st)
  }

  /** A deferred statement runs when the rest of its block has been left, however that happened. */
  function ExecSeq(cx: Cx, b: seq<Stmt>, st: State, fuel: nat): Outcome
    decreases fuel, b, 0
  {
    if b == [] then Done(Normal, st)
    else if b[0].Defer? then
      match ExecSeq(cx, b[1..], st, fuel)
      case Done(x, st1) => (
        match Exec(cx, b[0], st1, fuel)
        case Done(Normal, st2) => Done(x, st2)
        case other => other)
      case other => other
    else
      match Exec(cx, b[0], st, fuel)
      case Done(Normal, st1) => ExecSeq(cx, b[1..], st1, fuel)
      case other => other
  }

  /** A missing test holds. */
  function EvalOpt(cx: Cx, e: Option<Expr>, st: State): Result {
    if e.None? then Val(1, st) else Eval(cx, e.value, st)
  }

  function Loop(cx: Cx, cond: Option<Expr>, step: Option<Expr>, body: Stmt, st: State, fuel: nat): Outcome
    decreases fuel, body, 0
  {
    if fuel == 0 then Timeout
    else
      match EvalOpt(cx, cond, st)
      case Err(f) => Failed(f)
      case Val(v, st1) =>
        if v == 0 then Done(Normal, st1)
        else
          match Exec(cx, body, st1, fuel - 1)
          case Done(Broke, st2) => Done(Normal, st2)
          case Done(Returned(w), st2) => Done(Returned(w), st2)
          case Done(_, st2) => (
            match EvalOpt(cx, step, st2)
            case Err(f) => Failed(f)
            case Val(_, st3) => Loop(cx, cond, step, body, st3, fuel - 1))
          case other => other
  }

  // ----- which variables code can change -----

  /** Some assignment in e targets variable v. */
  predicate WritesE(e: Expr, v: nat) {
    match e
    case Index(_, i, _) => WritesE(i, v)
    case Deref(p) => WritesE(p, v)
    case Bin(_, l, r) => WritesE(l, v) || WritesE(r, v)
    case Logic(_, l, r) => WritesE(l, v) || WritesE(r, v)
    case Assign(l, r) => l == Var(v) || WritesE(l, v) || WritesE(r, v)
    case OpAssign(_, l, r) => l == Var(v) || WritesE(l, v) || WritesE(r, v)
    case Call(args) => exists i :: 0 <= i < |args| && WritesE(args[i], v)
    case _ => false
  }

  predicate WritesOpt(e: Option<Expr>, v: nat) { e.Some? && WritesE(e.value, v) }

  predicate Writes(s: Stmt, v: nat) {
    match s
    case Block(b) => exists i :: 0 <= i < |b| && Writes(b[i], v)
    case Do(e) => WritesE(e, v)
    case If(c, t, f) => WritesE(c, v) || Writes(t, v) || (f.Some? && Writes(f.value, v))
    case For(init, cond, step, body) => (init.Some? && Writes(init.value, v)) || WritesOpt(cond, v)
        || WritesOpt(step, v) || Writes(body, v)
    case Defer(d) => Writes(d, v)
    case Return(e) => WritesE(e, v)
    case _ => false
  }

  /** Variable v is declared in e. */
  predicate DeclaresE(e: Expr, v: nat) {
    match e
    case Zero(x) => x == v
    case Index(_, i, _) => DeclaresE(i, v)
    case Deref(p) => DeclaresE(p, v)
    case Bin(_, l, r) => DeclaresE(l, v) || DeclaresE(r, v)
    case Logic(_, l, r) => DeclaresE(l, v) || DeclaresE(r, v)
    case Assign(l, r) => DeclaresE(l, v) || DeclaresE(r, v)
    case OpAssign(_, l, r) => DeclaresE(l, v) || DeclaresE(r, v)
    case Call(args) => exists i :: 0 <= i < |args| && DeclaresE(args[i], v)
    case _ => false
  }

  predicate DeclaresOpt(e: Option<Expr>, v: nat) { e.Some? && DeclaresE(e.value, v) }

  predicate Declares(s: Stmt, v: nat) {
    match s
    case Block(b) => exists i :: 0 <= i < |b| && Declares(b[i], v)
    case Do(e) => DeclaresE(e, v)
    case If(c, t, f) => DeclaresE(c, v) || Declares(t, v) || (f.Some? && Declares(f.value, v))
    case For(init, cond, step, body) => (init.Some? && Declares(init.value, v)) || DeclaresOpt(cond, v)
        || DeclaresOpt(step, v) || Declares(body, v)
    case Defer(d) => Declares(d, v)
    case Return(e) => DeclaresE(e, v)
    case _ => false
  }

  /** A local whose address is never taken. */
  predicate Private(cx: Cx, v: nat) { v !in cx.globals && v !in cx.taken }

  ghost predicate KeepsE(cx: Cx, e: Expr, v: nat) { Private(cx, v) && !WritesE(e, v) && !DeclaresE(e, v) }

  ghost predicate Keeps(cx: Cx, s: Stmt, v: nat) { Private(cx, v) && !Writes(s, v) && !Declares(s, v) }

  lemma {:induction false} LocateKeeps(cx: Cx, e: Expr, st: State, v: nat)
    requires KeepsE(cx, e, v)
    ensures var r := Locate(cx, e, st); r.Found? ==> Get(r.st, v) == Get(st, v)
    ensures var r := Locate(cx, e, st); r.Found? && e != Var(v) ==> r.l != VarLoc(v)
    decreases e, 0
  {
    match e
    case Index(_, i, _) => EvalKeeps(cx, i, st, v);
    case Deref(p) => EvalKeeps(cx, p, st, v);
    case _ =>
  }

  /** Evaluation changes a private variable only where an assignment or declaration names it. */
  lemma {:induction false} EvalKeeps(cx: Cx, e: Expr, st: State, v: nat)
    requires KeepsE(cx, e, v)
    ensures var r := Eval(cx, e, st); r.Val? ==> Get(r.st, v) == Get(st, v)
    decreases e, 1
  {
    match e
    case Index(_, _, _) => LocateKeeps(cx, e, st, v);
    case Deref(_) => LocateKeeps(cx, e, st, v);
    case Bin(op, l, r) =>
      EvalKeeps(cx, r, st, v);
      var q := Eval(cx, r, st);
      if q.Val? { EvalKeeps(cx, l, q.st, v); }
    case Logic(_, l, r) =>
      EvalKeeps(cx, l, st, v);
      var q := Eval(cx, l, st);
      if q.Val? { EvalKeeps(cx, r, q.st, v); }
    case Assign(l, r) =>
      LocateKeeps(cx, l, st, v);
      var q := Locate(cx, l, st);
      if q.Found? { EvalKeeps(cx, r, q.st, v); }
    case OpAssign(_, l, r) =>
      LocateKeeps(cx, l, st, v);
      var q := Locate(cx, l, st);
      if q.Found? { EvalKeeps(cx, r, q.st, v); }
    case Call(args) => ArgsKeep(cx, args, st, v);
    case _ =>
  }

  lemma {:induction false} ArgsKeep(cx: Cx, args: seq<Expr>, st: State, v: nat)
    requires Private(cx, v) && forall i :: 0 <= i < |args| ==> !WritesE(args[i], v) && !DeclaresE(args[i], v)
    ensures var r := EvalArgs(cx, args, st); r.Args? ==> Get(r.st, v) == Get(st, v)
    decreases args, 0
  {
    if args != [] {
      EvalKeeps(cx, args[0], st, v);
      var r := Eval(cx, args[0], st);
      if r.Val? { ArgsKeep(cx, args[1..], r.st, v); }
    }
  }

  lemma {:induction false} OptKeeps(cx: Cx, e: Option<Expr>, st: State, v: nat)
    requires Private(cx, v) && !WritesOpt(e, v) && !DeclaresOpt(e, v)
    ensures var r := EvalOpt(cx, e, st); r.Val? ==> Get(r.st, v) == Get(st, v)
  {
    if e.Some? { EvalKeeps(cx, e.value, st, v); }
  }

  lemma {:induction false} ExecKeeps(cx: Cx, s: Stmt, st: State, fuel: nat, v: nat)
    requires Keeps(cx, s, v)
    ensures var r := Exec(cx, s, st, fuel); r.Done? ==> Get(r.st, v) == Get(st, v)
    decreases fuel, s, 1
  {
    match s
    case Block(b) => SeqKeeps(cx, b, st, fuel, v);
    case Do(e) => EvalKeeps(cx, e, st, v);
    case If(c, t, f) =>
      EvalKeeps(cx, c, st, v);
      var r := Eval(cx, c, st);
      if r.Val? {
        ExecKeeps(cx, t, r.st, fuel, v);
        if f.Some? { ExecKeeps(cx, f.value, r.st, fuel, v); }
      }
    case For(init, cond, step, body) =>
      if init.None? {
        LoopKeeps(cx, cond, step, body, st, fuel, v);
      } else {
        ExecKeeps(cx, init.value, st, fuel, v);
        var r := Exec(cx, init.value, st, fuel);
        if r.Done? { LoopKeeps(cx, cond, step, body, r.st, fuel, v); }
      }
    case Defer(d) => ExecKeeps(cx, d, st, fuel, v);
    case Return(e) => EvalKeeps(cx, e, st, v);
    case _ =>
  }

  lemma {:induction false} SeqKeeps(cx: Cx, b: seq<Stmt>, st: State, fuel: nat, v: nat)
    requires forall i :: 0 <= i < |b| ==> Keeps(cx, b[i], v)
    ensures var r := ExecSeq(cx, b, st, fuel); r.Done? ==> Get(r.st, v) == Get(st, v)
    decreases fuel, b, 0
  {
    if b != [] {
      if b[0].Defer? {
        SeqKeeps(cx, b[1..], st, fuel, v);
        var r := ExecSeq(cx, b[1..], st, fuel);
        if r.Done? { ExecKeeps(cx, b[0], r.st, fuel, v); }
      } else {
        ExecKeeps(cx, b[0], st, fuel, v);
        var r := Exec(cx, b[0], st, fuel);
        if r.Done? { SeqKeeps(cx, b[1..], r.st, fuel, v); }
      }
    }
  }

  lemma {:induction false} LoopKeeps(cx: Cx, cond: Option<Expr>, step: Option<Expr>, body: Stmt, st: State, fuel: nat,
      v: nat)
    requires !WritesOpt(cond, v) && !DeclaresOpt(cond, v) && !WritesOpt(step, v) && !DeclaresOpt(step, v)
        && Keeps(cx, body, v)
    ensures var r := Loop(cx, cond, step, body, st, fuel); r.Done? ==> Get(r.st, v) == Get(st, v)
    decreases fuel, body, 0
  {
    if fuel > 0 {
      OptKeeps(cx, cond, st, v);
      var t := EvalOpt(cx, cond, st);
      if t.Val? {
        ExecKeeps(cx, body, t.st, fuel - 1, v);
        var r := Exec(cx, body, t.st, fuel - 1);
        if r.Done? {
          OptKeeps(cx, step, r.st, v);
          var n := EvalOpt(cx, step, r.st);
          if n.Val? { LoopKeeps(cx, cond, step, body, n.st, fuel - 1, v); }
        }
      }
    }
  }
}
