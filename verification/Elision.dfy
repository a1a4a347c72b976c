/** Bounds-check elision: which accesses the pass marks, as functions of the tree. */
module Elision {
  import opened Common
  import Source
  import opened Checked

  /** 2^63 - 1. */
  const NN_MAX: int := 0x7fff_ffff_ffff_ffff

  /** A variable known to satisfy 0 <= v < ub, from an enclosing loop that was elided. */
  datatype Range = Range(v: nat, ub: int)

  type Env = seq<Range>

  ghost predicate EnvHolds(env: Env, st: State) { forall i :: 0 <= i < |env| ==> 0 <= Get(st, env[i].v) < env[i].ub }

  /** No code in s can take a variable of env out of its range. */
  ghost predicate EnvKept(cx: Cx, env: Env, s: Stmt) { forall i :: 0 <= i < |env| ==> Keeps(cx, s, env[i].v) }

  // ----- proven bounds -----

  /** The bound recorded for v, or -1. */
  function Find(env: Env, v: nat): int {
    if env == [] then -1 else if env[0].v == v then env[0].ub else Find(env[1..], v)
  }

  /** A bound of an expression proven non-negative, or -1. */
  function Ub(e: Expr, env: Env): int {
    match e
    case Num(v) => if v < 0 then -1 else v
    case Var(x) => Find(env, x)
    case Bin(Add, l, r) =>
      var a := Ub(l, env);
      if a < 0 then -1
      else
        var b := Ub(r, env);
        if b < 0 then -1 else if a > NN_MAX - b then -1 else a + b
    case _ => -1
  }

  lemma {:induction false} FindSound(env: Env, v: nat, st: State)
    requires EnvHolds(env, st) && Find(env, v) >= 0
    ensures 0 <= Get(st, v) <= Find(env, v)
    decreases env
  {
    if env[0].v != v {
      assert EnvHolds(env[1..], st) by {
        forall i | 0 <= i < |env| - 1 ensures 0 <= Get(st, env[1..][i].v) < env[1..][i].ub {
          assert env[1..][i] == env[i + 1];
        }
      }
      FindSound(env[1..], v, st);
    } else {
      assert 0 <= Get(st, env[0].v) < env[0].ub;
    }
  }

  /** A bounded expression evaluates, without side effects and without wrapping, into [0, bound]. */
  lemma {:induction false} UbSound(cx: Cx, e: Expr, env: Env, st: State)
    requires EnvHolds(env, st) && Ub(e, env) >= 0
    ensures var r := Eval(cx, e, st); r.Val? && r.st == st && 0 <= r.v <= Ub(e, env)
    ensures Ub(e, env) <= NN_MAX || e.Var?
    decreases e
  {
    match e
    case Num(v) =>
    case Var(x) => FindSound(env, x, st);
    case Bin(Add, l, r) =>
      UbSound(cx, l, env, st);
      UbSound(cx, r, env, st);
      NoWrap(Eval(cx, l, st).v + Eval(cx, r, st).v);
  }

  lemma NoWrap(x: int)
    requires 0 <= x <= NN_MAX
    ensures Wrap(x) == x
  {}

  /** Sums of literals that are not negative and of variables with a range. */
  predicate Simple(e: Expr, env: Env) {
    match e
    case Num(v) => v >= 0
    case Var(x) => exists i :: 0 <= i < |env| && env[i].v == x
    case Bin(Add, l, r) => Simple(l, env) && Simple(r, env)
    case _ => false
  }

  /** The largest value of such a sum; of several ranges of a variable the outermost counts. */
  function Sum(e: Expr, env: Env): int {
    match e
    case Num(v) => v
    case Var(x) => Outermost(env, x)
    case Bin(Add, l, r) => Sum(l, env) + Sum(r, env)
    case _ => 0
  }

  function Outermost(env: Env, x: nat): (ub: int)
    ensures forall i ::
      0 <= i < |env| && env[i].v == x && (forall j :: 0 <= j < i ==> env[j].v != x) ==> ub == env[i].ub
  {
    if env == [] then 0 else if env[0].v == x then env[0].ub else Outermost(env[1..], x)
  }

  /** As the bounds of loops are. */
  ghost predicate Ranged(env: Env) { forall i :: 0 <= i < |env| ==> 0 <= env[i].ub <= NN_MAX }

  lemma {:induction false} FindIff(env: Env, x: nat)
    requires Ranged(env)
    ensures if exists i :: 0 <= i < |env| && env[i].v == x then Find(env, x) == Outermost(env, x) >= 0
            else Find(env, x) == -1
    ensures Find(env, x) <= NN_MAX
    decreases env
  {
    if env != [] && env[0].v != x {
      assert forall i :: 0 < i < |env| ==> env[i] == env[1..][i - 1];
      FindIff(env[1..], x);
      if i :| 0 <= i < |env| && env[i].v == x { assert env[1..][i - 1].v == x; }
      if i :| 0 <= i < |env| - 1 && env[1..][i].v == x { assert env[i + 1].v == x; }
    }
  }

  /** A bound is found exactly for the sums whose largest value is a 64-bit number, and it is that value. */
  lemma {:induction false} UbIff(e: Expr, env: Env)
    requires Ranged(env)
    ensures Ub(e, env) == if Simple(e, env) && Sum(e, env) <= NN_MAX then Sum(e, env) else -1
    ensures Simple(e, env) ==> Sum(e, env) >= 0
    decreases e
  {
    match e
    case Var(x) => FindIff(env, x);
    case Bin(Add, l, r) =>
      UbIff(l, env);
      UbIff(r, env);
    case _ =>
  }

  // ----- the shapes -----

  /** `i = e`, `var i = e` or `var i`: the bound of the value i starts with, or -1. */
  function EntryUb(st: Option<Stmt>, iv: nat, env: Env): int {
    if st.None? || !st.value.Do? then -1
    else
      match st.value.e
      case Zero(x) => if x == iv then 0 else -1
      case Assign(l, r) => if l == Var(iv) || l == Zero(iv) then Ub(r, env) else -1
      case _ => -1
  }

  /** The s of `i = i + s` or `i += s`. */
  function StepOf(e: Option<Expr>, iv: nat): Option<Expr> {
    if e.None? then None
    else
      match e.value
      case Assign(Var(x), Bin(Add, Var(y), s)) => if x == iv && y == iv then Some(s) else None
      case OpAssign(Add, Var(x), s) => if x == iv then Some(s) else None
      case _ => None
  }

  /** The bound of s, or -1. */
  function StepUb(e: Option<Expr>, iv: nat, env: Env): int {
    if StepOf(e, iv).None? then -1 else Ub(StepOf(e, iv).value, env)
  }

  /** s itself, when it is a variable. */
  function StepVar(e: Option<Expr>, iv: nat): Option<nat> {
    match StepOf(e, iv)
    case Some(Var(x)) => Some(x)
    case _ => None
  }

  /** A statement that assigns to i directly. */
  predicate IsWrite(s: Stmt, iv: nat) {
    s.Do? && match s.e
             case Assign(l, _) => l == Var(iv)
             case OpAssign(_, l, _) => l == Var(iv)
             case _ => false
  }

  /** Statement k is the one place where i is written, and it is an increment. */
  ghost predicate OnlyInc(b: seq<Stmt>, k: nat, iv: nat, env: Env) {
    k < |b| && IsWrite(b[k], iv) && StepUb(Some(b[k].e), iv, env) >= 0
    && forall j :: 0 <= j < |b| && j != k ==> !Writes(b[j], iv)
  }

  /** The scan from statement i on, with an increment found so far or none. */
  function IncFrom(b: seq<Stmt>, i: nat, found: Option<nat>, iv: nat, env: Env): (r: Option<nat>)
    requires i <= |b| && (found.Some? ==> found.value < |b| && IsWrite(b[found.value], iv))
    ensures r.Some? ==> r.value < |b| && IsWrite(b[r.value], iv)
    decreases |b| - i
  {
    if i == |b| then found
    else if IsWrite(b[i], iv) then
      if found.Some? || StepUb(Some(b[i].e), iv, env) < 0 then None else IncFrom(b, i + 1, Some(i), iv, env)
    else if Writes(b[i], iv) then None
    else IncFrom(b, i + 1, found, iv, env)
  }

  /** The increment of a while-shaped loop. */
  function BodyInc(body: Stmt, iv: nat, env: Env): (r: Option<nat>)
    ensures r.Some? ==> body.Block? && r.value < |body.b| && IsWrite(body.b[r.value], iv)
  {
    if body.Block? then IncFrom(body.b, 0, None, iv, env) else None
  }

  lemma IsWriteWrites(s: Stmt, iv: nat)
    requires IsWrite(s, iv)
    ensures Writes(s, iv)
  {}

  lemma {:induction false} IncFromSpec(b: seq<Stmt>, i: nat, found: Option<nat>, iv: nat, env: Env)
    requires i <= |b| && (found.Some? ==> found.value < i)
    requires forall j :: 0 <= j < i && found != Some(j) ==> !Writes(b[j], iv)
    requires found.Some? ==> IsWrite(b[found.value], iv) && StepUb(Some(b[found.value].e), iv, env) >= 0
    ensures var r := IncFrom(b, i, found, iv, env); r.Some? ==> OnlyInc(b, r.value, iv, env)
    ensures var r := IncFrom(b, i, found, iv, env); r.None? ==> forall k :: !OnlyInc(b, k, iv, env)
    decreases |b| - i
  {
    if i < |b| {
      if IsWrite(b[i], iv) {
        IsWriteWrites(b[i], iv);
        if found.Some? { IsWriteWrites(b[found.value], iv); }
        if found.None? && StepUb(Some(b[i].e), iv, env) >= 0 { IncFromSpec(b, i + 1, Some(i), iv, env); }
      } else if !Writes(b[i], iv) {
        IncFromSpec(b, i + 1, found, iv, env);
      }
    }
  }

  /** The scan finds the increment exactly when the body has the shape. */
  lemma BodyIncSpec(body: Stmt, iv: nat, env: Env)
    ensures var r := BodyInc(body, iv, env);
      (r.Some? ==> body.Block? && OnlyInc(body.b, r.value, iv, env))
          && (r.None? && body.Block? ==> forall k :: !OnlyInc(body.b, k, iv, env))
  {
    if body.Block? { IncFromSpec(body.b, 0, None, iv, env); }
  }

  // ----- marking -----

  function MarkE(len: nat -> nat, e: Expr, iv: nat, K: int): Expr {
    match e
    case Index(a, i, nb) => Index(a, MarkE(len, i, iv, K), nb || (i == Var(iv) && len(a) == K))
    case Deref(p) => Deref(MarkE(len, p, iv, K))
    case Bin(op, l, r) => Bin(op, MarkE(len, l, iv, K), MarkE(len, r, iv, K))
    case Logic(isAnd, l, r) => Logic(isAnd, MarkE(len, l, iv, K), MarkE(len, r, iv, K))
    case Assign(l, r) => Assign(MarkE(len, l, iv, K), MarkE(len, r, iv, K))
    case OpAssign(op, l, r) => OpAssign(op, MarkE(len, l, iv, K), MarkE(len, r, iv, K))
    case Call(args) => Call(MarkArgs(len, args, iv, K))
    case _ => e
  }

  function MarkArgs(len: nat -> nat, args: seq<Expr>, iv: nat, K: int): (r: seq<Expr>)
    ensures |r| == |args|
  {
    if args == [] then [] else [MarkE(len, args[0], iv, K)] + MarkArgs(len, args[1..], iv, K)
  }

  function MarkOpt(len: nat -> nat, e: Option<Expr>, iv: nat, K: int): Option<Expr> {
    if e.None? then None else Some(MarkE(len, e.value, iv, K))
  }

  function Size(s: Stmt): nat {
    match s
    case Block(b) => 1 + SizeAll(b)
    case If(_, t, f) => 1 + Size(t) + (if f.Some? then Size(f.value) else 0)
    case For(init, _, _, body) => 2 + Size(body) + (if init.Some? then Size(init.value) else 0)
    case Defer(d) => 1 + Size(d)
    case _ => 1
  }

  function SizeAll(b: seq<Stmt>): nat {
    if b == [] then 0 else 1 + Size(b[0]) + SizeAll(b[1..])
  }

  function Mark(len: nat -> nat, s: Stmt, iv: nat, K: int): (r: Stmt)
    ensures Size(r) == Size(s)
  {
    match s
    case Block(b) => Block(MarkAll(len, b, iv, K))
    case Do(e) => Do(MarkE(len, e, iv, K))
    case If(c, t, f) => If(MarkE(len, c, iv, K), Mark(len, t, iv, K), if f.None? then None
        else Some(Mark(len, f.value, iv, K)))
    case For(init, cond, step, body) =>
      For(if init.None? then None else Some(Mark(len, init.value, iv, K)), MarkOpt(len, cond, iv, K),
          MarkOpt(len, step, iv, K), Mark(len, body, iv, K))
    case Defer(d) => Defer(Mark(len, d, iv, K))
    case Return(e) => Return(MarkE(len, e, iv, K))
    case _ => s
  }

  function MarkAll(len: nat -> nat, b: seq<Stmt>, iv: nat, K: int): (r: seq<Stmt>)
    ensures |r| == |b| && SizeAll(r) == SizeAll(b)
  {
    if b == [] then [] else [Mark(len, b[0], iv, K)] + MarkAll(len, b[1..], iv, K)
  }

  // ----- the walk -----

  /** What the pass decides about a loop: its variable, its bound, and the increment if it is in the body. */
  datatype Plan = Plan(iv: nat, K: int, inc: Option<nat>)

  function PlanFor(cx: Cx, init: Option<Stmt>, cond: Option<Expr>, step: Option<Expr>, body: Stmt, prev: Option<Stmt>,
      env: Env): Option<Plan> {
    match cond
    case Some(Bin(Lt, Var(c), Num(k))) => (
      if k < 0 || !Private(cx, c) || EntryUb(if init.Some? then init else prev, c, env) < 0 then None
      else if step.Some? then
        if StepUb(step, c, env) >= 0 && !Writes(body, c) && StepFits(step, c, env, k)
            && StepStays(step, c, step, body) then Some(Plan(c, k, None)) else None
      else
        match BodyInc(body, c, env)
        case None => None
        case Some(j) =>
          var inc := Some(body.b[j].e);
          if StepFits(inc, c, env, k) && StepStays(inc, c, None, body) then Some(Plan(c, k, Some(j))) else None)
    case _ => None
  }

  /** i + s stays a 64-bit number when i < k. */
  predicate StepFits(step: Option<Expr>, iv: nat, env: Env, k: int) { StepUb(step, iv, env) <= NN_MAX - k }

  /** A step variable is not written by the loop. */
  predicate StepStays(inc: Option<Expr>, iv: nat, step: Option<Expr>, body: Stmt) {
    match StepVar(inc, iv)
    case None => true
    case Some(sv) => !Writes(body, sv) && !WritesOpt(step, sv)
  }

  function Extend(env: Env, iv: nat, K: int): Env { if |env| < 64 then env + [Range(iv, K)] else env }

  function Elide(cx: Cx, s: Stmt, prev: Option<Stmt>, env: Env): (r: Stmt)
    ensures Size(r) == Size(s)
    decreases Size(s), 1
  {
    match s
    case Block(b) => Block(ElideAll(cx, b, None, env))
    case If(c, t, f) => If(c, Elide(cx, t, None, env), if f.None? then None else Some(Elide(cx, f.value, None, env)))
    case Defer(d) => Defer(Elide(cx, d, None, env))
    case For(init, cond, step, body) => For(init, cond, step,
        ElideBody(cx, body, PlanFor(cx, init, cond, step, body, prev, env), env))
    case _ => s
  }

  /** The body of a loop: the range of its variable is in force up to the increment. */
  function ElideBody(cx: Cx, body: Stmt, p: Option<Plan>, env: Env): (r: Stmt)
    ensures Size(r) == Size(body)
    decreases Size(body), 2
  {
    match p
    case None => Elide(cx, body, None, env)
    case Some(Plan(iv, K, None)) => Elide(cx, Mark(cx.len, body, iv, K), None, Extend(env, iv, K))
    case Some(Plan(iv, K, Some(j))) =>
      if body.Block? && j <= |body.b| then
        SizeSplit(body.b, j);
        var pre, rest := ElideAll(cx, MarkAll(cx.len, body.b[..j], iv, K), None, Extend(env, iv, K)),
            ElideAll(cx, body.b[j..], None, env);
        SizeSplit(pre + rest, j);
        assert (pre + rest)[..j] == pre && (pre + rest)[j..] == rest;
        Block(pre + rest)
      else body
  }

  function ElideAll(cx: Cx, b: seq<Stmt>, prev: Option<Stmt>, env: Env): (r: seq<Stmt>)
    ensures |r| == |b| && SizeAll(r) == SizeAll(b)
    decreases SizeAll(b), 0
  {
    if b == [] then [] else [Elide(cx, b[0], prev, env)] + ElideAll(cx, b[1..], Some(b[0]), env)
  }

  lemma {:induction false} SizeSplit(b: seq<Stmt>, j: nat)
    requires j <= |b|
    ensures SizeAll(b) == SizeAll(b[..j]) + SizeAll(b[j..])
    decreases j
  {
    if j > 0 {
      assert b[..j][1..] == b[1..][..j - 1] && b[j..] == b[1..][j - 1..];
      SizeSplit(b[1..], j - 1);
    }
  }
}
