/** Which accesses lose their check, place by place in the tree: exactly those by the variable of an
    enclosing loop that is taken, to an array of the length that the loop is tested against. */
module ElisionMarks {
  import opened Common
  import Source
  import opened Checked
  import opened Elision
  import opened ElisionSound

  // ----- places -----

  datatype Node = E(e: Expr) | S(s: Stmt)

  function Exprs(es: seq<Expr>): (ns: seq<Node>)
    ensures |ns| == |es| && forall k :: 0 <= k < |ns| ==> ns[k] == E(es[k])
  {
    seq(|es|, k requires 0 <= k < |es| => E(es[k]))
  }

  function Stmts(b: seq<Stmt>): (ns: seq<Node>)
    ensures |ns| == |b| && forall k :: 0 <= k < |ns| ==> ns[k] == S(b[k])
  {
    seq(|b|, k requires 0 <= k < |b| => S(b[k]))
  }

  function OptE(e: Option<Expr>): seq<Node> { if e.None? then [] else [E(e.value)] }

  function OptS(s: Option<Stmt>): seq<Node> { if s.None? then [] else [S(s.value)] }

  /** The nodes below, in order; a loop's body is the last. */
  function Kids(n: Node): seq<Node> {
    match n
    case E(Index(_, i, _)) => [E(i)]
    case E(Deref(p)) => [E(p)]
    case E(Bin(_, l, r)) => [E(l), E(r)]
    case E(Logic(_, l, r)) => [E(l), E(r)]
    case E(Assign(l, r)) => [E(l), E(r)]
    case E(OpAssign(_, l, r)) => [E(l), E(r)]
    case E(Call(args)) => Exprs(args)
    case E(_) => []
    case S(Block(b)) => Stmts(b)
    case S(Do(e)) => [E(e)]
    case S(If(c, t, f)) => [E(c), S(t)] + OptS(f)
    case S(For(init, cond, step, body)) => OptS(init) + OptE(cond) + OptE(step) + [S(body)]
    case S(Defer(d)) => [S(d)]
    case S(Return(e)) => [E(e)]
    case S(_) => []
  }

  /** The node that a path leads to. */
  function At(n: Node, path: seq<nat>): Option<Node>
    decreases |path|
  {
    if path == [] then Some(n)
    else if path[0] < |Kids(n)| then At(Kids(n)[path[0]], path[1..])
    else None
  }

  /** An array access: the array, the variable it is indexed by, and whether it has lost its check. */
  datatype Access = Access(a: nat, x: Option<nat>, nobounds: bool)

  function AccessOf(n: Node): Option<Access> {
    match n
    case E(Index(a, Var(x), nb)) => Some(Access(a, Some(x), nb))
    case E(Index(a, _, nb)) => Some(Access(a, None, nb))
    case _ => None
  }

  /** The same node, except that an access has lost its check if its variable and the length of its array
      are among the loops. */
  ghost predicate Lost(len: nat -> nat, n: Option<Node>, m: Option<Node>, loops: set<(nat, int)>) {
    && n.None? == m.None?
    && (n.Some? ==>
      match AccessOf(n.value)
      case None => AccessOf(m.value).None?
      case Some(Access(a, x, nb)) =>
        AccessOf(m.value) == Some(Access(a, x, nb || (x.Some? && (x.value, len(a)) in loops))))
  }

  lemma LostSame(len: nat -> nat, n: Option<Node>)
    ensures Lost(len, n, n, {})
  {}

  lemma LostBoth(len: nat -> nat, n: Option<Node>, m: Option<Node>, k: Option<Node>, a: set<(nat, int)>,
      b: set<(nat, int)>)
    requires Lost(len, n, m, a) && Lost(len, m, k, b)
    ensures Lost(len, n, k, a + b)
  {}

  // ----- the loops around a place -----

  /** The variables and bounds of the loops that are taken and have the place in their body, for a loop
      that steps in its body before the increment. */
  ghost function Around(cx: Cx, s: Stmt, prev: Option<Stmt>, env: Env, path: seq<nat>): set<(nat, int)>
    decreases |path|, 0
  {
    if path == [] then {}
    else
      var k := path[0];
      match s
      case Block(b) => if k < |b| then Around(cx, b[k], Before(b, k, None), env, path[1..]) else {}
      case If(_, t, f) =>
        if k == 1 then Around(cx, t, None, env, path[1..])
        else if k == 2 && f.Some? then Around(cx, f.value, None, env, path[1..])
        else {}
      case Defer(d) => if k == 0 then Around(cx, d, None, env, path[1..]) else {}
      case For(init, cond, step, body) =>
        if k != |Kids(S(s))| - 1 then {}
        else AroundBody(cx, body, PlanFor(cx, init, cond, step, body, prev, env), env, path[1..])
      case _ => {}
  }

  ghost function AroundBody(cx: Cx, body: Stmt, p: Option<Plan>, env: Env, path: seq<nat>): set<(nat, int)>
    decreases |path|, 1
  {
    match p
    case None => Around(cx, body, None, env, path)
    case Some(Plan(iv, K, None)) =>
      var inner := if |env| < 64 then env + [Range(iv, K)] else env;
      {(iv, K)} + Around(cx, body, None, inner, path)
    case Some(Plan(iv, K, Some(j))) =>
      if path == [] || !body.Block? || path[0] >= |body.b| then {}
      else
        var k := path[0];
        var inner := if |env| < 64 then env + [Range(iv, K)] else env;
        if k < j then {(iv, K)} + Around(cx, body.b[k], Before(body.b, k, None), inner, path[1..])
        else Around(cx, body.b[k], if k == j then None else Some(body.b[k - 1]), env, path[1..])
  }

  /** The statement before statement k. */
  function Before(b: seq<Stmt>, k: nat, first: Option<Stmt>): Option<Stmt>
    requires k < |b|
  {
    if k == 0 then first else Some(b[k - 1])
  }

  // ----- marking -----

  function MarkN(len: nat -> nat, n: Node, iv: nat, K: int): Node {
    match n case E(e) => E(MarkE(len, e, iv, K)) case S(s) => S(Mark(len, s, iv, K))
  }

  lemma {:induction false} MarkArgsAt(len: nat -> nat, args: seq<Expr>, iv: nat, K: int, k: nat)
    requires k < |args|
    ensures MarkArgs(len, args, iv, K)[k] == MarkE(len, args[k], iv, K)
    decreases k
  {
    if k > 0 { MarkArgsAt(len, args[1..], iv, K, k - 1); }
  }

  lemma {:induction false} MarkAllAt(len: nat -> nat, b: seq<Stmt>, iv: nat, K: int, k: nat)
    requires k < |b|
    ensures MarkAll(len, b, iv, K)[k] == Mark(len, b[k], iv, K)
    decreases k
  {
    if k > 0 { MarkAllAt(len, b[1..], iv, K, k - 1); }
  }

  lemma KidsMarked(len: nat -> nat, n: Node, iv: nat, K: int)
    ensures var m := MarkN(len, n, iv, K);
      |Kids(m)| == |Kids(n)| && forall k :: 0 <= k < |Kids(n)| ==> Kids(m)[k] == MarkN(len, Kids(n)[k], iv, K)
  {
    var m := MarkN(len, n, iv, K);
    forall k | 0 <= k < |Kids(n)| && k < |Kids(m)| ensures Kids(m)[k] == MarkN(len, Kids(n)[k], iv, K) {
      match n
      case E(Call(args)) => MarkArgsAt(len, args, iv, K, k);
      case S(Block(b)) => MarkAllAt(len, b, iv, K, k);
      case _ =>
    }
  }

  lemma MarkedHead(len: nat -> nat, n: Node, iv: nat, K: int)
    ensures Lost(len, Some(n), Some(MarkN(len, n, iv, K)), {(iv, K)})
  {
    match n
    case E(Index(a, i, nb)) =>
      var m := MarkN(len, n, iv, K);
      assert m == E(Index(a, MarkE(len, i, iv, K), nb || (i == Var(iv) && len(a) == K)));
      assert MarkE(len, i, iv, K).Var? == i.Var?;
    case _ =>
  }

  /** Marking reaches every place below. */
  lemma {:induction false} MarkedAt(len: nat -> nat, n: Node, iv: nat, K: int, path: seq<nat>)
    ensures Lost(len, At(n, path), At(MarkN(len, n, iv, K), path), {(iv, K)})
    decreases |path|
  {
    hide Lost, MarkN, Kids;
    if path == [] {
      MarkedHead(len, n, iv, K);
    } else {
      KidsMarked(len, n, iv, K);
      if path[0] < |Kids(n)| {
        MarkedAt(len, Kids(n)[path[0]], iv, K, path[1..]);
      } else {
        Nowhere(len, {(iv, K)});
      }
    }
  }

  lemma Nowhere(len: nat -> nat, loops: set<(nat, int)>)
    ensures Lost(len, None, None, loops)
  {}

  // ----- marks make no difference to what is decided -----

  lemma {:induction false} UbMarked(len: nat -> nat, e: Expr, iv: nat, K: int, env: Env)
    ensures Ub(MarkE(len, e, iv, K), env) == Ub(e, env)
    decreases e
  {
    match e
    case Bin(Add, l, r) =>
      UbMarked(len, l, iv, K, env);
      UbMarked(len, r, iv, K, env);
    case _ =>
  }

  /** The node on top stays. */
  lemma Top(len: nat -> nat, e: Expr, iv: nat, K: int)
    ensures var m := MarkE(len, e, iv, K);
      && (e.Var? || e.Zero? || e.Num? || m.Var? || m.Zero? || m.Num? ==> m == e)
      && m.Bin? == e.Bin? && (e.Bin? ==> m == Bin(e.op, MarkE(len, e.l, iv, K), MarkE(len, e.r, iv, K)))
      && m.Assign? == e.Assign? && (e.Assign? ==> m == Assign(MarkE(len, e.l, iv, K), MarkE(len, e.r, iv, K)))
      && m.OpAssign? == e.OpAssign?
      && (e.OpAssign? ==> m == OpAssign(e.op, MarkE(len, e.l, iv, K), MarkE(len, e.r, iv, K)))
  {}

  lemma StepOfMarked(len: nat -> nat, e: Option<Expr>, iv: nat, K: int, v: nat)
    ensures StepOf(MarkOpt(len, e, iv, K), v) == MarkOpt(len, StepOf(e, v), iv, K)
  {
    hide MarkE;
    if e.Some? {
      Top(len, e.value, iv, K);
      if e.value.Assign? || e.value.OpAssign? {
        Top(len, e.value.l, iv, K);
        Top(len, e.value.r, iv, K);
        if e.value.r.Bin? { Top(len, e.value.r.l, iv, K); }
      }
    }
  }

  function MarkOptS(len: nat -> nat, s: Option<Stmt>, iv: nat, K: int): Option<Stmt> {
    if s.None? then None else Some(Mark(len, s.value, iv, K))
  }

  lemma EntryMarked(len: nat -> nat, s: Option<Stmt>, iv: nat, K: int, v: nat, env: Env)
    ensures EntryUb(MarkOptS(len, s, iv, K), v, env) == EntryUb(s, v, env)
  {
    hide MarkE, Ub;
    if s.Some? && s.value.Do? {
      Top(len, s.value.e, iv, K);
      if s.value.e.Assign? {
        Top(len, s.value.e.l, iv, K);
        UbMarked(len, s.value.e.r, iv, K, env);
      }
    }
  }

  lemma StepMarked(len: nat -> nat, e: Option<Expr>, iv: nat, K: int, v: nat, env: Env)
    ensures StepUb(MarkOpt(len, e, iv, K), v, env) == StepUb(e, v, env)
        && StepVar(MarkOpt(len, e, iv, K), v) == StepVar(e, v)
  {
    hide MarkE, Ub, StepOf;
    StepOfMarked(len, e, iv, K, v);
    if StepOf(e, v).Some? {
      Top(len, StepOf(e, v).value, iv, K);
      UbMarked(len, StepOf(e, v).value, iv, K, env);
    }
  }

  lemma StaysMarked(len: nat -> nat, inc: Option<Expr>, v: nat, step: Option<Expr>, body: Stmt, iv: nat, K: int)
    ensures StepStays(MarkOpt(len, inc, iv, K), v, MarkOpt(len, step, iv, K), Mark(len, body, iv, K))
        == StepStays(inc, v, step, body)
  {
    hide Writes, WritesOpt, StepVar;
    StepMarked(len, inc, iv, K, v, []);
    match StepVar(inc, v)
    case None =>
    case Some(x) =>
      MarkSame(len, body, iv, K, x);
      MarkSameOpt(len, step, iv, K, x);
  }

  lemma {:induction false} IncMarked(len: nat -> nat, b: seq<Stmt>, i: nat, found: Option<nat>, iv: nat, K: int, v: nat,
      env: Env)
    requires i <= |b| && (found.Some? ==> found.value < |b| && IsWrite(b[found.value], v))
    ensures var m := MarkAll(len, b, iv, K);
      && (found.Some? ==> IsWrite(m[found.value], v))
      && IncFrom(m, i, found, v, env) == IncFrom(b, i, found, v, env)
    decreases |b| - i
  {
    hide Writes, IsWrite, Mark;
    MarkSameAll(len, b, iv, K, v);
    if i < |b| {
      MarkAllAt(len, b, iv, K, i);
      if IsWrite(b[i], v) {
        WriteMarked(len, b[i], iv, K, v, env);
        if found.None? && StepUb(Some(b[i].e), v, env) >= 0 { IncMarked(len, b, i + 1, Some(i), iv, K, v, env); }
      } else if !Writes(b[i], v) {
        IncMarked(len, b, i + 1, found, iv, K, v, env);
      }
    }
  }

  lemma WriteMarked(len: nat -> nat, s: Stmt, iv: nat, K: int, v: nat, env: Env)
    requires IsWrite(s, v)
    ensures s.Do? && Mark(len, s, iv, K).Do?
        && StepUb(Some(Mark(len, s, iv, K).e), v, env) == StepUb(Some(s.e), v, env)
  {
    StepMarked(len, Some(s.e), iv, K, v, env);
  }

  lemma BodyIncMarked(len: nat -> nat, body: Stmt, iv: nat, K: int, v: nat, env: Env)
    ensures BodyInc(Mark(len, body, iv, K), v, env) == BodyInc(body, v, env)
  {
    hide IncFrom;
    if body.Block? { IncMarked(len, body.b, 0, None, iv, K, v, env); }
  }

  lemma PlanMarked(cx: Cx, init: Option<Stmt>, cond: Option<Expr>, step: Option<Expr>, body: Stmt, prev: Option<Stmt>,
      env: Env, iv: nat, K: int)
    ensures PlanFor(cx, MarkOptS(cx.len, init, iv, K), MarkOpt(cx.len, cond, iv, K), MarkOpt(cx.len, step, iv, K),
        Mark(cx.len, body, iv, K), MarkOptS(cx.len, prev, iv, K), env) == PlanFor(cx, init, cond, step, body, prev, env)
  {
    hide Writes, EntryUb, StepUb, StepStays, StepFits, BodyInc, Private, MarkE, Mark;
    TestMarked(cx.len, cond, iv, K);
    if Tested(cond).Some? {
      var c := Tested(cond).value;
      EntryMarked(cx.len, if init.Some? then init else prev, iv, K, c, env);
      if step.Some? {
        CountedMarked(cx.len, step, c, body, env, iv, K);
      } else {
        BodyIncMarked(cx.len, body, iv, K, c, env);
        IncStays(cx.len, body, c, env, iv, K);
      }
    }
  }

  lemma CountedMarked(len: nat -> nat, step: Option<Expr>, v: nat, body: Stmt, env: Env, iv: nat, K: int)
    ensures var step', body' := MarkOpt(len, step, iv, K), Mark(len, body, iv, K);
      && StepUb(step', v, env) == StepUb(step, v, env) && Writes(body', v) == Writes(body, v)
      && (forall k :: StepFits(step', v, env, k) == StepFits(step, v, env, k))
      && StepStays(step', v, step', body') == StepStays(step, v, step, body)
  {
    hide StepUb, Writes, StepStays, MarkE, Mark;
    StepMarked(len, step, iv, K, v, env);
    StaysMarked(len, step, v, step, body, iv, K);
    MarkSame(len, body, iv, K, v);
  }

  lemma IncStays(len: nat -> nat, body: Stmt, v: nat, env: Env, iv: nat, K: int)
    requires BodyInc(Mark(len, body, iv, K), v, env) == BodyInc(body, v, env)
    ensures BodyInc(body, v, env).Some? ==>
      var j := BodyInc(body, v, env).value;
      var inc, inc' := Some(body.b[j].e), Some(Mark(len, body, iv, K).b[j].e);
      && StepUb(inc', v, env) == StepUb(inc, v, env)
      && (forall k :: StepFits(inc', v, env, k) == StepFits(inc, v, env, k))
      && StepStays(inc', v, None, Mark(len, body, iv, K)) == StepStays(inc, v, None, body)
  {
    hide StepUb, StepStays;
    if BodyInc(body, v, env).Some? {
      var j := BodyInc(body, v, env).value;
      MarkAllAt(len, body.b, iv, K, j);
      WriteMarked(len, body.b[j], iv, K, v, env);
      StaysMarked(len, Some(body.b[j].e), v, None, body, iv, K);
    }
  }

  /** A test stays what it is. */
  lemma TestMarked(len: nat -> nat, cond: Option<Expr>, iv: nat, K: int)
    ensures Tested(MarkOpt(len, cond, iv, K)) == Tested(cond)
    ensures Tested(cond).Some? ==> MarkOpt(len, cond, iv, K) == cond
  {
    if cond.Some? {
      Top(len, cond.value, iv, K);
      if cond.value.Bin? {
        Top(len, cond.value.l, iv, K);
        Top(len, cond.value.r, iv, K);
      }
    }
  }

  lemma BeforeMarked(len: nat -> nat, b: seq<Stmt>, k: nat, first: Option<Stmt>, iv: nat, K: int)
    requires k < |b|
    ensures Before(MarkAll(len, b, iv, K), k, MarkOptS(len, first, iv, K))
        == MarkOptS(len, Before(b, k, first), iv, K)
  {
    if k > 0 { MarkAllAt(len, b, iv, K, k - 1); }
  }

  /** The loops around a place are the same in the marked tree. */
  lemma {:induction false} AroundMarked(cx: Cx, s: Stmt, prev: Option<Stmt>, env: Env, path: seq<nat>, iv: nat, K: int)
    ensures Around(cx, Mark(cx.len, s, iv, K), MarkOptS(cx.len, prev, iv, K), env, path)
        == Around(cx, s, prev, env, path)
    decreases |path|, 0
  {
    hide MarkAll, PlanFor, Kids;
    if path != [] {
      var k := path[0];
      match s
      case Block(b) =>
        if k < |b| {
          MarkAllAt(cx.len, b, iv, K, k);
          BeforeMarked(cx.len, b, k, None, iv, K);
          AroundMarked(cx, b[k], Before(b, k, None), env, path[1..], iv, K);
        }
      case If(c, t, f) =>
        AroundMarked(cx, t, None, env, path[1..], iv, K);
        if f.Some? { AroundMarked(cx, f.value, None, env, path[1..], iv, K); }
      case Defer(d) => AroundMarked(cx, d, None, env, path[1..], iv, K);
      case For(init, cond, step, body) =>
        KidsMarked(cx.len, S(s), iv, K);
        PlanMarked(cx, init, cond, step, body, prev, env, iv, K);
        AroundBodyMarked(cx, body, PlanFor(cx, init, cond, step, body, prev, env), env, path[1..], iv, K);
      case _ =>
    }
  }

  lemma {:induction false} AroundBodyMarked(cx: Cx, body: Stmt, p: Option<Plan>, env: Env, path: seq<nat>, iv: nat,
      K: int)
    ensures AroundBody(cx, Mark(cx.len, body, iv, K), p, env, path) == AroundBody(cx, body, p, env, path)
    decreases |path|, 1
  {
    hide MarkAll, Around;
    match p
    case None => AroundMarked(cx, body, None, env, path, iv, K);
    case Some(Plan(v, K', None)) => AroundMarked(cx, body, None, Extend(env, v, K'), path, iv, K);
    case Some(Plan(v, K', Some(j))) =>
      if path != [] && body.Block? && path[0] < |body.b| {
        var k := path[0];
        var prev := if k < j then Before(body.b, k, None) else if k == j then None else Some(body.b[k - 1]);
        MarkAllAt(cx.len, body.b, iv, K, k);
        BeforeMarked(cx.len, body.b, k, None, iv, K);
        AroundMarked(cx, body.b[k], prev, if k < j then Extend(env, v, K') else env, path[1..], iv, K);
      }
  }

  // ----- the walk -----

  lemma {:induction false} ElideAllAt(cx: Cx, b: seq<Stmt>, first: Option<Stmt>, env: Env, k: nat)
    requires k < |b|
    ensures ElideAll(cx, b, first, env)[k] == Elide(cx, b[k], Before(b, k, first), env)
    decreases k
  {
    if k > 0 { ElideAllAt(cx, b[1..], Some(b[0]), env, k - 1); }
  }

  /** Every place of the tree that the walk returns: the same node, and an access has lost its check
      exactly if it had before, or an enclosing loop that is taken has that variable and that length. */
  lemma {:induction false} ElidedAt(cx: Cx, s: Stmt, prev: Option<Stmt>, env: Env, path: seq<nat>)
    ensures Lost(cx.len, At(S(s), path), At(S(Elide(cx, s, prev, env)), path), Around(cx, s, prev, env, path))
    decreases |path|, 0
  {
    hide Lost, PlanFor, Mark, MarkAll, ElideAll, ElideBody, AroundBody;
    LostSame(cx.len, At(S(s), path));
    if path == [] {
      HeadSame(cx, s, prev, env);
    } else {
      var k := path[0];
      match s
      case Block(b) =>
        if k < |b| {
          ElideAllAt(cx, b, None, env, k);
          ElidedAt(cx, b[k], Before(b, k, None), env, path[1..]);
        }
      case If(c, t, f) =>
        LostSame(cx.len, At(E(c), path[1..]));
        ElidedAt(cx, t, None, env, path[1..]);
        if f.Some? { ElidedAt(cx, f.value, None, env, path[1..]); }
      case Defer(d) => ElidedAt(cx, d, None, env, path[1..]);
      case For(init, cond, step, body) =>
        var p := PlanFor(cx, init, cond, step, body, prev, env);
        ForKids(s, ElideBody(cx, body, p, env));
        if k < |Kids(S(s))| { LostSame(cx.len, At(Kids(S(s))[k], path[1..])); }
        PlanInside(cx, init, cond, step, body, prev, env);
        ElidedBodyAt(cx, body, p, env, path[1..]);
      case _ =>
    }
  }

  lemma HeadSame(cx: Cx, s: Stmt, prev: Option<Stmt>, env: Env)
    ensures Lost(cx.len, At(S(s), []), At(S(Elide(cx, s, prev, env)), []), {})
  {}

  /** A loop with another body. */
  lemma ForKids(s: Stmt, body: Stmt)
    requires s.For?
    ensures var ks, ks' := Kids(S(s)), Kids(S(s.(body := body)));
      && |ks'| == |ks| > 0 && ks[|ks| - 1] == S(s.body) && ks'[|ks| - 1] == S(body)
      && forall k :: 0 <= k < |ks| - 1 ==> ks'[k] == ks[k]
  {}

  lemma {:induction false} ElidedBodyAt(cx: Cx, body: Stmt, p: Option<Plan>, env: Env, path: seq<nat>)
    requires p.Some? && p.value.inc.Some? ==> body.Block? && p.value.inc.value < |body.b|
    ensures Lost(cx.len, At(S(body), path), At(S(ElideBody(cx, body, p, env)), path),
        AroundBody(cx, body, p, env, path))
    decreases |path|, 3
  {
    hide Lost, At, Elide, ElideAll, MarkAll, Around;
    match p
    case None => ElidedAt(cx, body, None, env, path);
    case Some(Plan(iv, K, None)) => MarkedElidedAt(cx, body, None, Extend(env, iv, K), path, iv, K);
    case Some(Plan(iv, K, Some(j))) => ElidedUntilAt(cx, body, iv, K, j, env, path);
  }

  /** First marked, then walked. */
  lemma {:induction false} MarkedElidedAt(cx: Cx, s: Stmt, prev: Option<Stmt>, env: Env, path: seq<nat>, iv: nat,
      K: int)
    ensures Lost(cx.len, At(S(s), path),
        At(S(Elide(cx, Mark(cx.len, s, iv, K), MarkOptS(cx.len, prev, iv, K), env)), path),
        {(iv, K)} + Around(cx, s, prev, env, path))
    decreases |path|, 1
  {
    hide Lost, At, Elide, Around;
    var m, prev' := Mark(cx.len, s, iv, K), MarkOptS(cx.len, prev, iv, K);
    MarkedAt(cx.len, S(s), iv, K, path);
    ElidedAt(cx, m, prev', env, path);
    AroundMarked(cx, s, prev, env, path, iv, K);
    LostBoth(cx.len, At(S(s), path), At(S(m), path), At(S(Elide(cx, m, prev', env)), path), {(iv, K)},
      Around(cx, s, prev, env, path));
  }

  lemma PlanInside(cx: Cx, init: Option<Stmt>, cond: Option<Expr>, step: Option<Expr>, body: Stmt, prev: Option<Stmt>,
      env: Env)
    ensures var p := PlanFor(cx, init, cond, step, body, prev, env);
      p.Some? && p.value.inc.Some? ==> body.Block? && p.value.inc.value < |body.b|
  {
    hide BodyInc, EntryUb, StepUb, StepFits, StepStays, Writes;
  }

  /** The body of a loop that steps in it: marked and walked with the loop's range up to the increment. */
  lemma {:induction false} ElidedUntilAt(cx: Cx, body: Stmt, iv: nat, K: int, j: nat, env: Env, path: seq<nat>)
    requires body.Block? && j < |body.b|
    ensures var p := Some(Plan(iv, K, Some(j)));
      Lost(cx.len, At(S(body), path), At(S(ElideBody(cx, body, p, env)), path), AroundBody(cx, body, p, env, path))
    decreases |path|, 2
  {
    hide Lost, Elide, ElideAll, ElideBody, Mark, MarkAll, Around;
    var b := body.b;
    var b' := UntilAt(cx, body, iv, K, j, env);
    if path == [] {
      BlockHead(cx.len, b, b');
    } else if path[0] < |b| {
      var k := path[0];
      assert At(S(body), path) == At(S(b[k]), path[1..]) && At(S(Block(b')), path) == At(S(b'[k]), path[1..]);
      if k < j {
        MarkedElidedAt(cx, b[k], Before(b, k, None), Extend(env, iv, K), path[1..], iv, K);
      } else {
        ElidedAt(cx, b[k], if k == j then None else Some(b[k - 1]), env, path[1..]);
      }
    } else {
      Nowhere(cx.len, {});
    }
  }

  lemma BlockHead(len: nat -> nat, b: seq<Stmt>, b': seq<Stmt>)
    ensures Lost(len, Some(S(Block(b))), Some(S(Block(b'))), {})
  {}

  /** What becomes of statement k of such a body. */
  function Until1(cx: Cx, b: seq<Stmt>, iv: nat, K: int, j: nat, env: Env, k: nat): Stmt
    requires k < |b|
  {
    if k < j then
      Elide(cx, Mark(cx.len, b[k], iv, K), MarkOptS(cx.len, Before(b, k, None), iv, K), Extend(env, iv, K))
    else Elide(cx, b[k], if k == j then None else Some(b[k - 1]), env)
  }

  lemma UntilAt(cx: Cx, body: Stmt, iv: nat, K: int, j: nat, env: Env) returns (b': seq<Stmt>)
    requires body.Block? && j < |body.b|
    ensures ElideBody(cx, body, Some(Plan(iv, K, Some(j))), env) == Block(b') && |b'| == |body.b|
    ensures forall k: nat :: k < |b'| ==> b'[k] == Until1(cx, body.b, iv, K, j, env, k)
  {
    hide Elide, ElideAll, Mark, MarkAll, Extend;
    var b := body.b;
    var ms := MarkAll(cx.len, b[..j], iv, K);
    var pre, rest := ElideAll(cx, ms, None, Extend(env, iv, K)), ElideAll(cx, b[j..], None, env);
    b' := pre + rest;
    forall k: nat | k < |b'| ensures b'[k] == Until1(cx, b, iv, K, j, env, k) {
      if k < j {
        ElideAllAt(cx, ms, None, Extend(env, iv, K), k);
        MarkAllAt(cx.len, b[..j], iv, K, k);
        BeforeMarked(cx.len, b[..j], k, None, iv, K);
        assert Before(b[..j], k, None) == Before(b, k, None);
      } else {
        ElideAllAt(cx, b[j..], None, env, k - j);
        if k > j { assert b[j..][k - j - 1] == b[k - 1]; }
      }
    }
  }

  // ----- nothing but marks changes -----

  /** Every access with its check. */
  function EraseE(e: Expr): Expr {
    match e
    case Index(a, i, _) => Index(a, EraseE(i), false)
    case Deref(p) => Deref(EraseE(p))
    case Bin(op, l, r) => Bin(op, EraseE(l), EraseE(r))
    case Logic(isAnd, l, r) => Logic(isAnd, EraseE(l), EraseE(r))
    case Assign(l, r) => Assign(EraseE(l), EraseE(r))
    case OpAssign(op, l, r) => OpAssign(op, EraseE(l), EraseE(r))
    case Call(args) => Call(EraseArgs(args))
    case _ => e
  }

  function EraseArgs(args: seq<Expr>): seq<Expr> {
    if args == [] then [] else [EraseE(args[0])] + EraseArgs(args[1..])
  }

  function EraseOpt(e: Option<Expr>): Option<Expr> { if e.None? then None else Some(EraseE(e.value)) }

  function Erase(s: Stmt): Stmt {
    match s
    case Block(b) => Block(EraseAll(b))
    case Do(e) => Do(EraseE(e))
    case If(c, t, f) => If(EraseE(c), Erase(t), if f.None? then None else Some(Erase(f.value)))
    case For(init, cond, step, body) =>
      For(if init.None? then None else Some(Erase(init.value)), EraseOpt(cond), EraseOpt(step), Erase(body))
    case Defer(d) => Defer(Erase(d))
    case Return(e) => Return(EraseE(e))
    case _ => s
  }

  function EraseAll(b: seq<Stmt>): seq<Stmt> { if b == [] then [] else [Erase(b[0])] + EraseAll(b[1..]) }

  lemma {:induction false} EraseMarkE(len: nat -> nat, e: Expr, iv: nat, K: int)
    ensures EraseE(MarkE(len, e, iv, K)) == EraseE(e)
    decreases e, 1
  {
    match e
    case Index(_, i, _) => EraseMarkE(len, i, iv, K);
    case Deref(p) => EraseMarkE(len, p, iv, K);
    case Bin(_, l, r) => EraseMarkE(len, l, iv, K); EraseMarkE(len, r, iv, K);
    case Logic(_, l, r) => EraseMarkE(len, l, iv, K); EraseMarkE(len, r, iv, K);
    case Assign(l, r) => EraseMarkE(len, l, iv, K); EraseMarkE(len, r, iv, K);
    case OpAssign(_, l, r) => EraseMarkE(len, l, iv, K); EraseMarkE(len, r, iv, K);
    case Call(args) => EraseMarkArgs(len, args, iv, K);
    case _ =>
  }

  lemma {:induction false} EraseMarkArgs(len: nat -> nat, args: seq<Expr>, iv: nat, K: int)
    ensures EraseArgs(MarkArgs(len, args, iv, K)) == EraseArgs(args)
    decreases args, 0
  {
    if args != [] {
      EraseMarkE(len, args[0], iv, K);
      EraseMarkArgs(len, args[1..], iv, K);
      assert MarkArgs(len, args, iv, K)[1..] == MarkArgs(len, args[1..], iv, K);
    }
  }

  lemma EraseMarkOpt(len: nat -> nat, e: Option<Expr>, iv: nat, K: int)
    ensures EraseOpt(MarkOpt(len, e, iv, K)) == EraseOpt(e)
  {
    if e.Some? { EraseMarkE(len, e.value, iv, K); }
  }

  lemma {:induction false} EraseMark(len: nat -> nat, s: Stmt, iv: nat, K: int)
    ensures Erase(Mark(len, s, iv, K)) == Erase(s)
    decreases s, 1
  {
    hide MarkE, EraseE;
    match s
    case Block(b) => EraseMarkAll(len, b, iv, K);
    case Do(e) => EraseMarkE(len, e, iv, K);
    case If(c, t, f) =>
      EraseMarkE(len, c, iv, K);
      EraseMark(len, t, iv, K);
      if f.Some? { EraseMark(len, f.value, iv, K); }
    case For(init, cond, step, body) =>
      if init.Some? { EraseMark(len, init.value, iv, K); }
      EraseMarkOpt(len, cond, iv, K);
      EraseMarkOpt(len, step, iv, K);
      EraseMark(len, body, iv, K);
    case Defer(d) => EraseMark(len, d, iv, K);
    case Return(e) => EraseMarkE(len, e, iv, K);
    case _ =>
  }

  lemma {:induction false} EraseMarkAll(len: nat -> nat, b: seq<Stmt>, iv: nat, K: int)
    ensures EraseAll(MarkAll(len, b, iv, K)) == EraseAll(b)
    decreases b, 0
  {
    if b != [] {
      EraseMark(len, b[0], iv, K);
      EraseMarkAll(len, b[1..], iv, K);
      assert MarkAll(len, b, iv, K)[1..] == MarkAll(len, b[1..], iv, K);
    }
  }

  lemma {:induction false} EraseElide(cx: Cx, s: Stmt, prev: Option<Stmt>, env: Env)
    ensures Erase(Elide(cx, s, prev, env)) == Erase(s)
    decreases Size(s), 1
  {
    hide PlanFor, EraseE;
    match s
    case Block(b) => EraseElideAll(cx, b, None, env);
    case If(_, t, f) =>
      EraseElide(cx, t, None, env);
      if f.Some? { EraseElide(cx, f.value, None, env); }
    case Defer(d) => EraseElide(cx, d, None, env);
    case For(init, cond, step, body) =>
      PlanInside(cx, init, cond, step, body, prev, env);
      EraseElideBody(cx, body, PlanFor(cx, init, cond, step, body, prev, env), env);
    case _ =>
  }

  lemma {:induction false} EraseElideBody(cx: Cx, body: Stmt, p: Option<Plan>, env: Env)
    requires p.Some? && p.value.inc.Some? ==> body.Block? && p.value.inc.value < |body.b|
    ensures Erase(ElideBody(cx, body, p, env)) == Erase(body)
    decreases Size(body), 2
  {
    hide Elide, Mark, Extend;
    match p
    case None => EraseElide(cx, body, None, env);
    case Some(Plan(iv, K, None)) =>
      EraseElide(cx, Mark(cx.len, body, iv, K), None, Extend(env, iv, K));
      EraseMark(cx.len, body, iv, K);
    case Some(Plan(iv, K, Some(j))) =>
      var b := body.b;
      var ms := MarkAll(cx.len, b[..j], iv, K);
      SizeSplit(b, j);
      EraseElideAll(cx, ms, None, Extend(env, iv, K));
      EraseElideAll(cx, b[j..], None, env);
      EraseMarkAll(cx.len, b[..j], iv, K);
      EraseJoin(ElideAll(cx, ms, None, Extend(env, iv, K)), ElideAll(cx, b[j..], None, env));
      EraseJoin(b[..j], b[j..]);
      assert b == b[..j] + b[j..];
  }

  lemma {:induction false} EraseJoin(a: seq<Stmt>, b: seq<Stmt>)
    ensures EraseAll(a + b) == EraseAll(a) + EraseAll(b)
    decreases a
  {
    hide Erase;
    if a == [] {
      assert a + b == b;
    } else {
      assert (a + b)[0] == a[0] && (a + b)[1..] == a[1..] + b;
      EraseJoin(a[1..], b);
    }
  }

  lemma {:induction false} EraseElideAll(cx: Cx, b: seq<Stmt>, prev: Option<Stmt>, env: Env)
    ensures EraseAll(ElideAll(cx, b, prev, env)) == EraseAll(b)
    decreases SizeAll(b), 0
  {
    if b != [] {
      EraseElide(cx, b[0], prev, env);
      EraseElideAll(cx, b[1..], Some(b[0]), env);
      assert ElideAll(cx, b, prev, env)[1..] == ElideAll(cx, b[1..], Some(b[0]), env);
    }
  }

  lemma {:induction false} EraseUnmarkedE(e: Expr)
    requires UnmarkedE(e)
    ensures EraseE(e) == e
    decreases e, 1
  {
    match e
    case Index(_, i, _) => EraseUnmarkedE(i);
    case Deref(p) => EraseUnmarkedE(p);
    case Bin(_, l, r) => EraseUnmarkedE(l); EraseUnmarkedE(r);
    case Logic(_, l, r) => EraseUnmarkedE(l); EraseUnmarkedE(r);
    case Assign(l, r) => EraseUnmarkedE(l); EraseUnmarkedE(r);
    case OpAssign(_, l, r) => EraseUnmarkedE(l); EraseUnmarkedE(r);
    case Call(args) => EraseUnmarkedArgs(args);
    case _ =>
  }

  lemma {:induction false} EraseUnmarkedArgs(args: seq<Expr>)
    requires forall i :: 0 <= i < |args| ==> UnmarkedE(args[i])
    ensures EraseArgs(args) == args
    decreases args, 0
  {
    if args != [] {
      EraseUnmarkedE(args[0]);
      EraseUnmarkedArgs(args[1..]);
      assert args == [args[0]] + args[1..];
    }
  }

  lemma {:induction false} EraseUnmarked(s: Stmt)
    requires Unmarked(s)
    ensures Erase(s) == s
    decreases s, 1
  {
    hide UnmarkedE, EraseE;
    match s
    case Block(b) => EraseUnmarkedAll(b);
    case Do(e) => EraseUnmarkedE(e);
    case If(c, t, f) =>
      EraseUnmarkedE(c);
      EraseUnmarked(t);
      if f.Some? { EraseUnmarked(f.value); }
    case For(init, cond, step, body) =>
      if init.Some? { EraseUnmarked(init.value); }
      if cond.Some? { EraseUnmarkedE(cond.value); }
      if step.Some? { EraseUnmarkedE(step.value); }
      EraseUnmarked(body);
    case Defer(d) => EraseUnmarked(d);
    case Return(e) => EraseUnmarkedE(e);
    case _ =>
  }

  lemma {:induction false} EraseUnmarkedAll(b: seq<Stmt>)
    requires forall i :: 0 <= i < |b| ==> Unmarked(b[i])
    ensures EraseAll(b) == b
    decreases b, 0
  {
    if b != [] {
      EraseUnmarked(b[0]);
      EraseUnmarkedAll(b[1..]);
      assert b == [b[0]] + b[1..];
    }
  }

  /** r is the function with exactly the checks dropped that the loops around them make unnecessary. */
  ghost predicate Dropped(cx: Cx, body: Stmt, r: Stmt) {
    && (forall path: seq<nat> {:trigger At(S(body), path)} {:trigger At(S(r), path)} ::
          Lost(cx.len, At(S(body), path), At(S(r), path), Around(cx, body, None, [], path)))
    && Erase(r) == Erase(body)
  }

  lemma DroppedAll(cx: Cx, body: Stmt)
    ensures Dropped(cx, body, Elide(cx, body, None, []))
    ensures Unmarked(body) ==> Erase(Elide(cx, body, None, [])) == body
  {
    hide Lost, At, Around, Elide, Erase;
    var r := Elide(cx, body, None, []);
    forall path: seq<nat> {:trigger At(S(body), path)} {:trigger At(S(r), path)}
      ensures Lost(cx.len, At(S(body), path), At(S(r), path), Around(cx, body, None, [], path))
    {
      ElidedAt(cx, body, None, [], path);
    }
    EraseElide(cx, body, None, []);
    if Unmarked(body) { EraseUnmarked(body); }
  }

  // ----- scans, place by place -----

  /** A node with the property is in the tree. */
  ghost predicate HasE(e: Expr, p: Node -> bool) {
    || p(E(e))
    || match e
       case Index(_, i, _) => HasE(i, p)
       case Deref(q) => HasE(q, p)
       case Bin(_, l, r) => HasE(l, p) || HasE(r, p)
       case Logic(_, l, r) => HasE(l, p) || HasE(r, p)
       case Assign(l, r) => HasE(l, p) || HasE(r, p)
       case OpAssign(_, l, r) => HasE(l, p) || HasE(r, p)
       case Call(args) => exists i :: 0 <= i < |args| && HasE(args[i], p)
       case _ => false
  }

  ghost predicate HasOpt(e: Option<Expr>, p: Node -> bool) { e.Some? && HasE(e.value, p) }

  ghost predicate Has(s: Stmt, p: Node -> bool) {
    || p(S(s))
    || match s
       case Block(b) => exists i :: 0 <= i < |b| && Has(b[i], p)
       case Do(e) => HasE(e, p)
       case If(c, t, f) => HasE(c, p) || Has(t, p) || (f.Some? && Has(f.value, p))
       case For(init, cond, step, body) =>
         (init.Some? && Has(init.value, p)) || HasOpt(cond, p) || HasOpt(step, p) || Has(body, p)
       case Defer(d) => Has(d, p)
       case Return(e) => HasE(e, p)
       case _ => false
  }

  ghost predicate HasN(n: Node, p: Node -> bool) { match n case E(e) => HasE(e, p) case S(s) => Has(s, p) }

  ghost predicate Leads(n: Node, path: seq<nat>, p: Node -> bool) { At(n, path).Some? && p(At(n, path).value) }

  lemma KidHas(n: Node, k: nat, p: Node -> bool)
    requires k < |Kids(n)| && HasN(Kids(n)[k], p)
    ensures HasN(n, p)
  {}

  lemma {:induction false} LeadsHas(n: Node, path: seq<nat>, p: Node -> bool)
    requires Leads(n, path, p)
    ensures HasN(n, p)
    decreases |path|
  {
    hide HasN, Kids;
    if path == [] {
      HereHas(n, p);
    } else {
      LeadsHas(Kids(n)[path[0]], path[1..], p);
      KidHas(n, path[0], p);
    }
  }

  lemma HereHas(n: Node, p: Node -> bool)
    requires p(n)
    ensures HasN(n, p)
  {}

  /** A path through kid k. */
  lemma Through(n: Node, k: nat, path: seq<nat>, p: Node -> bool)
    requires k < |Kids(n)| && Leads(Kids(n)[k], path, p)
    ensures Leads(n, [k] + path, p)
  {
    assert ([k] + path)[1..] == path;
  }

  lemma {:induction false} PlaceE(e: Expr, p: Node -> bool) returns (path: seq<nat>)
    requires HasE(e, p)
    ensures Leads(E(e), path, p)
    decreases e
  {
    hide Leads;
    if p(E(e)) {
      path := [];
      Here(E(e), p);
    } else {
      var n, k := E(e), 0;
      if e.Call? {
        var i :| 0 <= i < |e.args| && HasE(e.args[i], p);
        k := i;
        path := PlaceE(e.args[i], p);
      } else if e.Index? {
        path := PlaceE(e.i, p);
      } else if e.Deref? {
        path := PlaceE(e.p, p);
      } else if HasE(e.l, p) {
        path := PlaceE(e.l, p);
      } else {
        k := 1;
        path := PlaceE(e.r, p);
      }
      Through(n, k, path, p);
      path := [k] + path;
    }
  }

  lemma Here(n: Node, p: Node -> bool)
    requires p(n)
    ensures Leads(n, [], p)
  {}

  lemma {:induction false} Place(s: Stmt, p: Node -> bool) returns (path: seq<nat>)
    requires Has(s, p)
    ensures Leads(S(s), path, p)
    decreases s
  {
    hide Leads, HasE;
    if p(S(s)) {
      path := [];
      Here(S(s), p);
    } else {
      var k: nat := 0;
      match s {
        case Block(b) =>
          var i :| 0 <= i < |b| && Has(b[i], p);
          k := i;
          path := Place(b[i], p);
        case Do(e) => path := PlaceE(e, p);
        case If(c, t, f) =>
          if HasE(c, p) {
            path := PlaceE(c, p);
          } else if Has(t, p) {
            k := 1;
            path := Place(t, p);
          } else {
            k := 2;
            path := Place(f.value, p);
          }
        case For(init, cond, step, body) =>
          var a := |OptS(init)|;
          var b := a + |OptE(cond)|;
          if init.Some? && Has(init.value, p) {
            path := Place(init.value, p);
          } else if HasOpt(cond, p) {
            k := a;
            path := PlaceE(cond.value, p);
          } else if HasOpt(step, p) {
            k := b;
            path := PlaceE(step.value, p);
          } else {
            k := b + |OptE(step)|;
            path := Place(body, p);
          }
        case Defer(d) => path := Place(d, p);
        case Return(e) => path := PlaceE(e, p);
      }
      Through(S(s), k, path, p);
      path := [k] + path;
    }
  }

  lemma HasIff(s: Stmt, p: Node -> bool)
    ensures Has(s, p) <==> exists path :: Leads(S(s), path, p)
  {
    if Has(s, p) { var path := Place(s, p); }
    if path :| Leads(S(s), path, p) { LeadsHas(S(s), path, p); }
  }

  /** An assignment, plain or with an operator, to variable v. */
  function Storing(v: nat): Node -> bool {
    (n: Node) => n.E? && ((n.e.Assign? && n.e.l == Var(v)) || (n.e.OpAssign? && n.e.l == Var(v)))
  }

  lemma {:induction false} WritesHasE(e: Expr, v: nat)
    ensures WritesE(e, v) <==> HasE(e, Storing(v))
    decreases e
  {
    match e
    case Index(_, i, _) => WritesHasE(i, v);
    case Deref(p) => WritesHasE(p, v);
    case Bin(_, l, r) => WritesHasE(l, v); WritesHasE(r, v);
    case Logic(_, l, r) => WritesHasE(l, v); WritesHasE(r, v);
    case Assign(l, r) => WritesHasE(l, v); WritesHasE(r, v);
    case OpAssign(_, l, r) => WritesHasE(l, v); WritesHasE(r, v);
    case Call(args) => forall i | 0 <= i < |args| ensures WritesE(args[i], v) <==> HasE(args[i], Storing(v)) {
      WritesHasE(args[i], v);
    }
    case _ =>
  }

  lemma {:induction false} WritesHas(s: Stmt, v: nat)
    ensures Writes(s, v) <==> Has(s, Storing(v))
    decreases s
  {
    hide WritesE, HasE;
    match s
    case Block(b) => forall i | 0 <= i < |b| ensures Writes(b[i], v) <==> Has(b[i], Storing(v)) {
      WritesHas(b[i], v);
    }
    case Do(e) => WritesHasE(e, v);
    case If(c, t, f) =>
      WritesHasE(c, v);
      WritesHas(t, v);
      if f.Some? { WritesHas(f.value, v); }
    case For(init, cond, step, body) =>
      if init.Some? { WritesHas(init.value, v); }
      if cond.Some? { WritesHasE(cond.value, v); }
      if step.Some? { WritesHasE(step.value, v); }
      WritesHas(body, v);
    case Defer(d) => WritesHas(d, v);
    case Return(e) => WritesHasE(e, v);
    case _ =>
  }

  /** The scan for writes finds exactly the statements in which an assignment to the variable stands at some
      place. */
  lemma WritesIff(s: Stmt, v: nat)
    ensures Writes(s, v) <==> exists path :: Leads(S(s), path, Storing(v))
  {
    WritesHas(s, v);
    HasIff(s, Storing(v));
  }
}
