/** Elision changes nothing: on every run, a marked access is in range. */
module ElisionSound {
  import opened Common
  import Source
  import opened Checked
  import opened Elision

  // ----- marking where the range holds -----

  ghost predicate InRange(st: State, iv: nat, K: int) { 0 <= Get(st, iv) < K }

  lemma {:induction false} MarkLocate(cx: Cx, e: Expr, iv: nat, K: int, st: State)
    requires KeepsE(cx, e, iv) && InRange(st, iv, K)
    ensures Locate(cx, MarkE(cx.len, e, iv, K), st) == Locate(cx, e, st)
    decreases e, 0
  {
    match e
    case Index(a, i, nb) => MarkEval(cx, i, iv, K, st);
    case Deref(p) => MarkEval(cx, p, iv, K, st);
    case _ =>
  }

  lemma {:induction false} MarkEval(cx: Cx, e: Expr, iv: nat, K: int, st: State)
    requires KeepsE(cx, e, iv) && InRange(st, iv, K)
    ensures Eval(cx, MarkE(cx.len, e, iv, K), st) == Eval(cx, e, st)
    decreases e, 1
  {
    match e
    case Index(_, _, _) => MarkLocate(cx, e, iv, K, st);
    case Deref(_) => MarkLocate(cx, e, iv, K, st);
    case Bin(op, l, r) =>
      MarkEval(cx, r, iv, K, st);
      EvalKeeps(cx, r, st, iv);
      var q := Eval(cx, r, st);
      if q.Val? { MarkEval(cx, l, iv, K, q.st); }
    case Logic(_, l, r) =>
      MarkEval(cx, l, iv, K, st);
      EvalKeeps(cx, l, st, iv);
      var q := Eval(cx, l, st);
      if q.Val? { MarkEval(cx, r, iv, K, q.st); }
    case Assign(l, r) =>
      MarkLocate(cx, l, iv, K, st);
      LocateKeeps(cx, l, st, iv);
      var q := Locate(cx, l, st);
      if q.Found? { MarkEval(cx, r, iv, K, q.st); }
    case OpAssign(_, l, r) =>
      MarkLocate(cx, l, iv, K, st);
      LocateKeeps(cx, l, st, iv);
      var q := Locate(cx, l, st);
      if q.Found? { MarkEval(cx, r, iv, K, q.st); }
    case Call(args) => MarkEvalArgs(cx, args, iv, K, st);
    case _ =>
  }

  lemma {:induction false} MarkEvalArgs(cx: Cx, args: seq<Expr>, iv: nat, K: int, st: State)
    requires (forall i :: 0 <= i < |args| ==> KeepsE(cx, args[i], iv)) && InRange(st, iv, K)
    ensures EvalArgs(cx, MarkArgs(cx.len, args, iv, K), st) == EvalArgs(cx, args, st)
    decreases args, 0
  {
    if args != [] {
      MarkEval(cx, args[0], iv, K, st);
      EvalKeeps(cx, args[0], st, iv);
      var r := Eval(cx, args[0], st);
      if r.Val? { MarkEvalArgs(cx, args[1..], iv, K, r.st); }
    }
  }

  lemma MarkEvalOpt(cx: Cx, e: Option<Expr>, iv: nat, K: int, st: State)
    requires (e.Some? ==> KeepsE(cx, e.value, iv)) && InRange(st, iv, K)
    ensures EvalOpt(cx, MarkOpt(cx.len, e, iv, K), st) == EvalOpt(cx, e, st)
  {
    if e.Some? { MarkEval(cx, e.value, iv, K, st); }
  }

  lemma {:induction false} MarkExec(cx: Cx, s: Stmt, iv: nat, K: int, st: State, fuel: nat)
    requires Keeps(cx, s, iv) && InRange(st, iv, K)
    ensures Exec(cx, Mark(cx.len, s, iv, K), st, fuel) == Exec(cx, s, st, fuel)
    decreases fuel, s, 1
  {
    match s
    case Block(b) => MarkSeq(cx, b, iv, K, st, fuel);
    case Do(e) => MarkEval(cx, e, iv, K, st);
    case If(c, t, f) =>
      MarkEval(cx, c, iv, K, st);
      EvalKeeps(cx, c, st, iv);
      var r := Eval(cx, c, st);
      if r.Val? {
        MarkExec(cx, t, iv, K, r.st, fuel);
        if f.Some? { MarkExec(cx, f.value, iv, K, r.st, fuel); }
      }
    case For(init, cond, step, body) =>
      if init.None? {
        MarkLoop(cx, cond, step, body, iv, K, st, fuel);
      } else {
        MarkExec(cx, init.value, iv, K, st, fuel);
        ExecKeeps(cx, init.value, st, fuel, iv);
        var r := Exec(cx, init.value, st, fuel);
        if r.Done? { MarkLoop(cx, cond, step, body, iv, K, r.st, fuel); }
      }
    case Defer(d) => MarkExec(cx, d, iv, K, st, fuel);
    case Return(e) => MarkEval(cx, e, iv, K, st);
    case _ =>
  }

  lemma {:induction false} MarkSeq(cx: Cx, b: seq<Stmt>, iv: nat, K: int, st: State, fuel: nat)
    requires (forall i :: 0 <= i < |b| ==> Keeps(cx, b[i], iv)) && InRange(st, iv, K)
    ensures ExecSeq(cx, MarkAll(cx.len, b, iv, K), st, fuel) == ExecSeq(cx, b, st, fuel)
    decreases fuel, b, 0
  {
    if b != [] {
      var c := MarkAll(cx.len, b, iv, K);
      assert c[0] == Mark(cx.len, b[0], iv, K) && c[1..] == MarkAll(cx.len, b[1..], iv, K);
      assert c[0].Defer? == b[0].Defer?;
      if b[0].Defer? {
        MarkSeq(cx, b[1..], iv, K, st, fuel);
        SeqKeeps(cx, b[1..], st, fuel, iv);
        var r := ExecSeq(cx, b[1..], st, fuel);
        if r.Done? { MarkExec(cx, b[0], iv, K, r.st, fuel); }
      } else {
        MarkExec(cx, b[0], iv, K, st, fuel);
        ExecKeeps(cx, b[0], st, fuel, iv);
        var r := Exec(cx, b[0], st, fuel);
        if r.Done? { MarkSeq(cx, b[1..], iv, K, r.st, fuel); }
      }
    }
  }

  lemma {:induction false} MarkLoop(cx: Cx, cond: Option<Expr>, step: Option<Expr>, body: Stmt, iv: nat, K: int,
      st: State, fuel: nat)
    requires (cond.Some? ==> KeepsE(cx, cond.value, iv)) && (step.Some? ==> KeepsE(cx, step.value, iv))
        && Keeps(cx, body, iv) && InRange(st, iv, K)
    ensures Loop(cx, MarkOpt(cx.len, cond, iv, K), MarkOpt(cx.len, step, iv, K), Mark(cx.len, body, iv, K), st, fuel)
        == Loop(cx, cond, step, body, st, fuel)
    decreases fuel, body, 0
  {
    hide Loop, Eval, Exec, EvalOpt, Mark, MarkE, MarkOpt;
    if fuel == 0 {
      NoRounds(cx, cond, MarkOpt(cx.len, cond, iv, K), step, MarkOpt(cx.len, step, iv, K), body,
        Mark(cx.len, body, iv, K), st);
    } else {
      MarkEvalOpt(cx, cond, iv, K, st);
      OptKeeps(cx, cond, st, iv);
      var t := EvalOpt(cx, cond, st);
      if t.Val? {
        MarkExec(cx, body, iv, K, t.st, fuel - 1);
        ExecKeeps(cx, body, t.st, fuel - 1, iv);
        var r := Exec(cx, body, t.st, fuel - 1);
        if r.Done? {
          MarkEvalOpt(cx, step, iv, K, r.st);
          OptKeeps(cx, step, r.st, iv);
          var n := EvalOpt(cx, step, r.st);
          if n.Val? { MarkLoop(cx, cond, step, body, iv, K, n.st, fuel - 1); }
        }
      }
      SameRound(cx, cond, MarkOpt(cx.len, cond, iv, K), step, MarkOpt(cx.len, step, iv, K), body,
        Mark(cx.len, body, iv, K), st, fuel);
    }
  }

  lemma NoRounds(cx: Cx, c: Option<Expr>, c': Option<Expr>, e: Option<Expr>, e': Option<Expr>, b: Stmt, b': Stmt,
      st: State)
    ensures Loop(cx, c', e', b', st, 0) == Loop(cx, c, e, b, st, 0)
  {}

  /** Loops whose first rounds are the same, and what follows. */
  lemma SameRound(cx: Cx, c: Option<Expr>, c': Option<Expr>, e: Option<Expr>, e': Option<Expr>, b: Stmt, b': Stmt,
      st: State, fuel: nat)
    requires fuel > 0 && EvalOpt(cx, c', st) == EvalOpt(cx, c, st)
    requires var t := EvalOpt(cx, c, st);
      t.Val? ==> Exec(cx, b', t.st, fuel - 1) == Exec(cx, b, t.st, fuel - 1)
    requires var t := EvalOpt(cx, c, st);
      t.Val? && Exec(cx, b, t.st, fuel - 1).Done? ==>
        var r := Exec(cx, b, t.st, fuel - 1);
        var n := EvalOpt(cx, e, r.st);
        EvalOpt(cx, e', r.st) == n
        && (n.Val? ==> Loop(cx, c', e', b', n.st, fuel - 1) == Loop(cx, c, e, b, n.st, fuel - 1))
    ensures Loop(cx, c', e', b', st, fuel) == Loop(cx, c, e, b, st, fuel)
  {
    hide Eval, Exec, EvalOpt;
  }

  // ----- side conditions -----

  /** The walk with its arguments, and what it takes for granted at every loop it elides. */
  predicate Safe(cx: Cx, s: Stmt, prev: Option<Stmt>, env: Env)
    decreases Size(s), 1
  {
    match s
    case Block(b) => SafeAll(cx, b, None, env)
    case If(_, t, f) => Safe(cx, t, None, env) && (f.Some? ==> Safe(cx, f.value, None, env))
    case Defer(d) => Safe(cx, d, None, env)
    case For(init, cond, step, body) => SafeBody(cx, body, PlanFor(cx, init, cond, step, body, prev, env), env)
    case _ => true
  }

  /** The loop variable is declared before the loop, not inside it. */
  predicate SafeBody(cx: Cx, body: Stmt, p: Option<Plan>, env: Env)
    decreases Size(body), 2
  {
    match p
    case None => Safe(cx, body, None, env)
    case Some(Plan(iv, K, None)) => !Declares(body, iv) && Safe(cx, Mark(cx.len, body, iv, K), None, Extend(env, iv, K))
    case Some(Plan(iv, K, Some(j))) =>
      !Declares(body, iv) && body.Block? && j <= |body.b| && SafeUntil(cx, body.b, j, iv, K, None, env)
  }

  predicate SafeAll(cx: Cx, b: seq<Stmt>, prev: Option<Stmt>, env: Env)
    decreases SizeAll(b), 0
  {
    b != [] ==> Safe(cx, b[0], prev, env) && SafeAll(cx, b[1..], Some(b[0]), env)
  }

  /** The body of a loop that is elided up to its statement j. */
  predicate SafeUntil(cx: Cx, b: seq<Stmt>, j: nat, iv: nat, K: int, prev: Option<Stmt>, env: Env)
    requires j <= |b|
    decreases SizeAll(b), 1
  {
    if j == 0 then SafeAll(cx, b, None, env)
    else
      var m, env' := Mark(cx.len, b[0], iv, K), Extend(env, iv, K);
      && (if b[0].Defer? then Unconcerned(cx, b[0], iv, K, env) && Safe(cx, b[0], None, env)
          else Safe(cx, m, prev, env'))
      && SafeUntil(cx, b[1..], j - 1, iv, K, Some(m), env)
  }

  /** A statement that is deferred before the increment runs after it. Neither the marking nor the
      loop's range may make a difference to it: no access to an array of length K by the loop variable
      itself, and no loop that is elided only because of the new range. */
  predicate Unconcerned(cx: Cx, d: Stmt, iv: nat, K: int, env: Env) {
    Mark(cx.len, d, iv, K) == d && Elide(cx, d, None, Extend(env, iv, K)) == Elide(cx, d, None, env)
  }

  lemma {:induction false} MarkSameE(len: nat -> nat, e: Expr, iv: nat, K: int, v: nat)
    ensures WritesE(MarkE(len, e, iv, K), v) == WritesE(e, v) && DeclaresE(MarkE(len, e, iv, K), v) == DeclaresE(e, v)
    decreases e, 1
  {
    match e
    case Index(_, i, _) => MarkSameE(len, i, iv, K, v);
    case Deref(p) => MarkSameE(len, p, iv, K, v);
    case Bin(_, l, r) => MarkSameE(len, l, iv, K, v); MarkSameE(len, r, iv, K, v);
    case Logic(_, l, r) => MarkSameE(len, l, iv, K, v); MarkSameE(len, r, iv, K, v);
    case Assign(l, r) => MarkSameE(len, l, iv, K, v); MarkSameE(len, r, iv, K, v);
    case OpAssign(_, l, r) => MarkSameE(len, l, iv, K, v); MarkSameE(len, r, iv, K, v);
    case Call(args) => MarkSameArgs(len, args, iv, K, v);
    case _ =>
  }

  lemma {:induction false} MarkSameArgs(len: nat -> nat, args: seq<Expr>, iv: nat, K: int, v: nat)
    ensures var m := MarkArgs(len, args, iv, K);
      forall i :: 0 <= i < |args| ==>
        WritesE(m[i], v) == WritesE(args[i], v) && DeclaresE(m[i], v) == DeclaresE(args[i], v)
    decreases args, 0
  {
    if args != [] {
      MarkSameE(len, args[0], iv, K, v);
      MarkSameArgs(len, args[1..], iv, K, v);
      forall i | 0 <= i < |args|
        ensures WritesE(MarkArgs(len, args, iv, K)[i], v) == WritesE(args[i], v)
            && DeclaresE(MarkArgs(len, args, iv, K)[i], v) == DeclaresE(args[i], v)
      {
        if i > 0 {
          assert args[i] == args[1..][i - 1];
          assert MarkArgs(len, args, iv, K)[i] == MarkArgs(len, args[1..], iv, K)[i - 1];
        }
      }
    }
  }

  lemma MarkSameOpt(len: nat -> nat, e: Option<Expr>, iv: nat, K: int, v: nat)
    ensures WritesOpt(MarkOpt(len, e, iv, K), v) == WritesOpt(e, v) && DeclaresOpt(MarkOpt(len, e, iv, K), v)
        == DeclaresOpt(e, v)
  {
    if e.Some? { MarkSameE(len, e.value, iv, K, v); }
  }

  lemma {:induction false} MarkSame(len: nat -> nat, s: Stmt, iv: nat, K: int, v: nat)
    ensures Writes(Mark(len, s, iv, K), v) == Writes(s, v) && Declares(Mark(len, s, iv, K), v) == Declares(s, v)
    ensures IsWrite(Mark(len, s, iv, K), v) == IsWrite(s, v)
    decreases s, 1
  {
    match s
    case Block(b) => MarkSameAll(len, b, iv, K, v);
    case Do(e) => MarkSameE(len, e, iv, K, v);
    case If(c, t, f) =>
      MarkSameE(len, c, iv, K, v);
      MarkSame(len, t, iv, K, v);
      if f.Some? { MarkSame(len, f.value, iv, K, v); }
    case For(init, cond, step, body) =>
      if init.Some? { MarkSame(len, init.value, iv, K, v); }
      MarkSameOpt(len, cond, iv, K, v);
      MarkSameOpt(len, step, iv, K, v);
      MarkSame(len, body, iv, K, v);
    case Defer(d) => MarkSame(len, d, iv, K, v);
    case Return(e) => MarkSameE(len, e, iv, K, v);
    case _ =>
  }

  lemma {:induction false} MarkSameAll(len: nat -> nat, b: seq<Stmt>, iv: nat, K: int, v: nat)
    ensures forall i :: 0 <= i < |b| ==>
      var m := MarkAll(len, b, iv, K)[i];
      Writes(m, v) == Writes(b[i], v) && Declares(m, v) == Declares(b[i], v) && IsWrite(m, v) == IsWrite(b[i], v)
          && m.Defer? == b[i].Defer?
    decreases b, 0
  {
    if b != [] {
      MarkSame(len, b[0], iv, K, v);
      MarkSameAll(len, b[1..], iv, K, v);
      var c := MarkAll(len, b, iv, K);
      forall i | 0 <= i < |b|
        ensures Writes(c[i], v) == Writes(b[i], v) && Declares(c[i], v) == Declares(b[i], v)
            && IsWrite(c[i], v) == IsWrite(b[i], v) && c[i].Defer? == b[i].Defer?
      {
        if i > 0 { assert b[i] == b[1..][i - 1] && c[i] == MarkAll(len, b[1..], iv, K)[i - 1]; }
      }
    }
  }

  lemma MarkEnvKept(cx: Cx, env: Env, s: Stmt, iv: nat, K: int)
    requires EnvKept(cx, env, s)
    ensures EnvKept(cx, env, Mark(cx.len, s, iv, K))
  {
    forall i | 0 <= i < |env|
      ensures Keeps(cx, Mark(cx.len, s, iv, K), env[i].v)
    {
      MarkSame(cx.len, s, iv, K, env[i].v);
    }
  }

  // ----- soundness of the walk -----

  /** What the statement before says about the variables it starts. */
  ghost predicate EntryHolds(prev: Option<Stmt>, env: Env, st: State) {
    forall v {:trigger EntryUb(prev, v, env)} :: EntryUb(prev, v, env) >= 0 ==> 0 <= Get(st, v)
  }

  lemma EntryAfter(cx: Cx, s: Stmt, env: Env, st: State, fuel: nat)
    requires EnvHolds(env, st) && Exec(cx, s, st, fuel).Done? && Exec(cx, s, st, fuel).x == Normal
    ensures EntryHolds(Some(s), env, Exec(cx, s, st, fuel).st)
  {
    forall v {:trigger EntryUb(Some(s), v, env)} | EntryUb(Some(s), v, env) >= 0
      ensures 0 <= Get(Exec(cx, s, st, fuel).st, v)
    {
      match s.e
      case Zero(x) =>
      case Assign(l, r) =>
        UbSound(cx, r, env, st);
        assert Locate(cx, l, st) == Found(VarLoc(v), st);
        assert Eval(cx, s.e, st) == Val(Eval(cx, r, st).v, Store(st, VarLoc(v), Eval(cx, r, st).v));
    }
  }

  lemma EnvStays(cx: Cx, env: Env, s: Stmt, st: State, fuel: nat)
    requires EnvKept(cx, env, s) && EnvHolds(env, st)
    ensures var r := Exec(cx, s, st, fuel); r.Done? ==> EnvHolds(env, r.st)
  {
    var r := Exec(cx, s, st, fuel);
    if r.Done? {
      forall i | 0 <= i < |env| ensures 0 <= Get(r.st, env[i].v) < env[i].ub { ExecKeeps(cx, s, st, fuel, env[i].v); }
    }
  }

  lemma EnvStaysOpt(cx: Cx, env: Env, e: Option<Expr>, st: State)
    requires (e.Some? ==> forall i :: 0 <= i < |env| ==> KeepsE(cx, e.value, env[i].v)) && EnvHolds(env, st)
    ensures var r := EvalOpt(cx, e, st); r.Val? ==> EnvHolds(env, r.st)
  {
    var r := EvalOpt(cx, e, st);
    if r.Val? {
      forall i | 0 <= i < |env| ensures 0 <= Get(r.st, env[i].v) < env[i].ub {
        if e.Some? { EvalKeeps(cx, e.value, st, env[i].v); }
      }
    }
  }

  /** The step of a loop whose test has just held does not wrap. */
  lemma StepSound(cx: Cx, e: Expr, iv: nat, env: Env, K: int, st: State)
    requires EnvHolds(env, st) && StepUb(Some(e), iv, env) >= 0 && StepFits(Some(e), iv, env, K) && InRange(st, iv, K)
    ensures var r := Eval(cx, e, st); r.Val? && Get(st, iv) <= Get(r.st, iv) < K + StepUb(Some(e), iv, env) <= NN_MAX
    ensures var r := Eval(cx, e, st); r.st == Store(st, VarLoc(iv), Get(r.st, iv))
  {
    var s := StepOf(Some(e), iv).value;
    UbSound(cx, s, env, st);
    var sum := Get(st, iv) + Eval(cx, s, st).v;
    NoWrap(sum);
    assert Locate(cx, Var(iv), st) == Found(VarLoc(iv), st);
    match e
    case Assign(l, r) =>
      assert r == Bin(Source.Add, Var(iv), s) && Eval(cx, Var(iv), st) == Val(Get(st, iv), st);
      assert Eval(cx, r, st) == Val(sum, st);
      assert Eval(cx, e, st) == Val(sum, Store(st, VarLoc(iv), sum));
    case OpAssign(op, l, r) =>
      assert Eval(cx, e, st) == Val(sum, Store(st, VarLoc(iv), sum));
  }

  /** The pass changes no run: in particular no marked access is ever out of range. */
  lemma {:induction false} ElideSound(cx: Cx, s: Stmt, prev: Option<Stmt>, env: Env, st: State, fuel: nat)
    requires Safe(cx, s, prev, env) && EnvKept(cx, env, s) && EnvHolds(env, st) && EntryHolds(prev, env, st)
    ensures Exec(cx, Elide(cx, s, prev, env), st, fuel) == Exec(cx, s, st, fuel)
    decreases fuel, Size(s), 1
  {
    match s
    case Block(b) =>
      BlockKept(cx, env, b);
      ElideSeqSound(cx, b, None, env, st, fuel);
    case If(c, t, f) =>
      var r := Eval(cx, c, st);
      if r.Val? {
        IfKept(cx, env, c, t, f);
        EnvStaysOpt(cx, env, Some(c), st);
        ElideSound(cx, t, None, env, r.st, fuel);
        if f.Some? { ElideSound(cx, f.value, None, env, r.st, fuel); }
      }
    case For(init, cond, step, body) => ElideForSound(cx, s, prev, env, st, fuel);
    case Defer(d) =>
      assert EnvKept(cx, env, d) by {
        forall i | 0 <= i < |env| ensures Keeps(cx, d, env[i].v) { assert Keeps(cx, s, env[i].v); }
      }
      ElideSound(cx, d, None, env, st, fuel);
    case _ =>
  }

  lemma BlockKept(cx: Cx, env: Env, b: seq<Stmt>)
    requires EnvKept(cx, env, Block(b))
    ensures forall i :: 0 <= i < |b| ==> EnvKept(cx, env, b[i])
  {
    forall i, j | 0 <= i < |b| && 0 <= j < |env|
      ensures Keeps(cx, b[i], env[j].v)
    {
      assert Keeps(cx, Block(b), env[j].v);
    }
  }

  lemma IfKept(cx: Cx, env: Env, c: Expr, t: Stmt, f: Option<Stmt>)
    requires EnvKept(cx, env, If(c, t, f))
    ensures (forall i :: 0 <= i < |env| ==> KeepsE(cx, c, env[i].v)) && EnvKept(cx, env, t)
        && (f.Some? ==> EnvKept(cx, env, f.value))
  {
    forall j | 0 <= j < |env|
      ensures KeepsE(cx, c, env[j].v) && Keeps(cx, t, env[j].v) && (f.Some? ==> Keeps(cx, f.value, env[j].v))
    {
      assert Keeps(cx, If(c, t, f), env[j].v);
    }
  }

  lemma {:induction false} ElideSeqSound(cx: Cx, b: seq<Stmt>, prev: Option<Stmt>, env: Env, st: State, fuel: nat)
    requires SafeAll(cx, b, prev, env) && EnvHolds(env, st) && EntryHolds(prev, env, st)
    requires forall i :: 0 <= i < |b| ==> EnvKept(cx, env, b[i])
    ensures ExecSeq(cx, ElideAll(cx, b, prev, env), st, fuel) == ExecSeq(cx, b, st, fuel)
    decreases fuel, SizeAll(b), 0
  {
    if b != [] {
      var c := ElideAll(cx, b, prev, env);
      assert c[0] == Elide(cx, b[0], prev, env) && c[1..] == ElideAll(cx, b[1..], Some(b[0]), env);
      assert c[0].Defer? == b[0].Defer?;
      if b[0].Defer? {
        ElideSeqSound(cx, b[1..], Some(b[0]), env, st, fuel);
        var r := ExecSeq(cx, b[1..], st, fuel);
        if r.Done? {
          SeqEnvStays(cx, env, b[1..], st, fuel);
          ElideSound(cx, b[0], None, env, r.st, fuel);
        }
      } else {
        ElideSound(cx, b[0], prev, env, st, fuel);
        var r := Exec(cx, b[0], st, fuel);
        if r.Done? && r.x == Normal {
          EnvStays(cx, env, b[0], st, fuel);
          EntryAfter(cx, b[0], env, st, fuel);
          ElideSeqSound(cx, b[1..], Some(b[0]), env, r.st, fuel);
        }
      }
    }
  }

  lemma SeqEnvStays(cx: Cx, env: Env, b: seq<Stmt>, st: State, fuel: nat)
    requires (forall i :: 0 <= i < |b| ==> EnvKept(cx, env, b[i])) && EnvHolds(env, st)
    ensures var r := ExecSeq(cx, b, st, fuel); r.Done? ==> EnvHolds(env, r.st)
  {
    var r := ExecSeq(cx, b, st, fuel);
    if r.Done? {
      forall i | 0 <= i < |env| ensures 0 <= Get(r.st, env[i].v) < env[i].ub {
        forall j | 0 <= j < |b| ensures Keeps(cx, b[j], env[i].v) { assert EnvKept(cx, env, b[j]); }
        SeqKeeps(cx, b, st, fuel, env[i].v);
      }
    }
  }

  lemma {:induction false} ElideForSound(cx: Cx, s: Stmt, prev: Option<Stmt>, env: Env, st: State, fuel: nat)
    requires s.For? && Safe(cx, s, prev, env) && EnvKept(cx, env, s) && EnvHolds(env, st) && EntryHolds(prev, env, st)
    ensures Exec(cx, Elide(cx, s, prev, env), st, fuel) == Exec(cx, s, st, fuel)
    decreases fuel, Size(s), 0
  {
    var For(init, cond, step, body) := s;
    ForKept(cx, env, s);
    var body' := Elide(cx, s, prev, env).body;
    if init.None? {
      ElideLoopSound(cx, s, prev, env, st, fuel);
    } else {
      var r := Exec(cx, init.value, st, fuel);
      if r.Done? && r.x == Normal {
        EnvStays(cx, env, init.value, st, fuel);
        EntryAfter(cx, init.value, env, st, fuel);
        ElideLoopSound(cx, s, prev, env, r.st, fuel);
      }
    }
  }

  /** Neither the test nor the step of a loop changes v. */
  ghost predicate HeadKeeps(cx: Cx, cond: Option<Expr>, step: Option<Expr>, v: nat) {
    !WritesOpt(cond, v) && !DeclaresOpt(cond, v) && !WritesOpt(step, v) && !DeclaresOpt(step, v) && Private(cx, v)
  }

  lemma ForKept(cx: Cx, env: Env, s: Stmt)
    requires s.For? && EnvKept(cx, env, s)
    ensures (s.init.Some? ==> EnvKept(cx, env, s.init.value)) && EnvKept(cx, env, s.body)
    ensures forall i :: 0 <= i < |env| ==> HeadKeeps(cx, s.cond, s.step, env[i].v)
  {
    forall j | 0 <= j < |env|
      ensures (s.init.Some? ==> Keeps(cx, s.init.value, env[j].v)) && Keeps(cx, s.body, env[j].v)
      ensures !WritesOpt(s.cond, env[j].v) && !DeclaresOpt(s.cond, env[j].v) && !WritesOpt(s.step, env[j].v)
          && !DeclaresOpt(s.step, env[j].v) && Private(cx, env[j].v)
    {
      assert Keeps(cx, s, env[j].v);
    }
  }

  /** The elided body of a loop, for a plan. */
  function Body(cx: Cx, s: Stmt, prev: Option<Stmt>, env: Env): Stmt
    requires s.For?
  {
    ElideBody(cx, s.body, PlanFor(cx, s.init, s.cond, s.step, s.body, prev, env), env)
  }

  lemma ElideLoopSound(cx: Cx, s: Stmt, prev: Option<Stmt>, env: Env, st: State, fuel: nat)
    requires s.For? && Safe(cx, s, prev, env) && EnvKept(cx, env, s) && EnvHolds(env, st)
        && EntryHolds(if s.init.Some? then s.init else prev, env, st)
    ensures Loop(cx, s.cond, s.step, Body(cx, s, prev, env), st, fuel) == Loop(cx, s.cond, s.step, s.body, st, fuel)
    decreases fuel, Size(s) - 1, 1
  {
    var For(init, cond, step, body) := s;
    ForKept(cx, env, s);
    match PlanFor(cx, init, cond, step, body, prev, env)
    case None => PlainLoop(cx, cond, step, body, env, st, fuel);
    case Some(Plan(iv, K, None)) => CountedLoop(cx, cond, step, body, iv, K, env, st, fuel);
    case Some(Plan(iv, K, Some(j))) =>
      BodyIncSpec(body, iv, env);
      WhileLoop(cx, cond, body, iv, K, j, env, st, fuel);
  }

  /** What is known of a loop's parts while its ranges are in force. */
  ghost predicate LoopKept(cx: Cx, cond: Option<Expr>, step: Option<Expr>, body: Stmt, env: Env) {
    && EnvKept(cx, env, body)
    && forall i :: 0 <= i < |env| ==> HeadKeeps(cx, cond, step, env[i].v)
  }

  /** A loop that is not elided: the ranges in force outside hold inside. */
  lemma {:induction false} PlainLoop(cx: Cx, cond: Option<Expr>, step: Option<Expr>, body: Stmt, env: Env, st: State,
      fuel: nat)
    requires Safe(cx, body, None, env) && LoopKept(cx, cond, step, body, env) && EnvHolds(env, st)
    ensures Loop(cx, cond, step, Elide(cx, body, None, env), st, fuel) == Loop(cx, cond, step, body, st, fuel)
    decreases fuel, 0, 0
  {
    hide Eval, Exec, Elide;
    if fuel > 0 {
      EnvStaysOpt(cx, env, cond, st);
      var t := EvalOpt(cx, cond, st);
      if t.Val? {
        ElideSound(cx, body, None, env, t.st, fuel - 1);
        EnvStays(cx, env, body, t.st, fuel - 1);
        var r := Exec(cx, body, t.st, fuel - 1);
        if r.Done? {
          EnvStaysOpt(cx, env, step, r.st);
          var n := EvalOpt(cx, step, r.st);
          if n.Val? { PlainLoop(cx, cond, step, body, env, n.st, fuel - 1); }
        }
      }
    }
  }

  /** `i < K`. */
  function Test(iv: nat, K: I64): Option<Expr> { Some(Bin(Source.Lt, Var(iv), Num(K))) }

  lemma TestMeaning(cx: Cx, iv: nat, K: I64, st: State)
    ensures EvalOpt(cx, Test(iv, K), st) == Val(if Get(st, iv) < K then 1 else 0, st)
  {
    assert Eval(cx, Num(K), st) == Val(K, st) && Eval(cx, Var(iv), st) == Val(Get(st, iv), st);
  }

  lemma ExtendHolds(cx: Cx, env: Env, iv: nat, K: int, st: State, s: Stmt)
    requires EnvHolds(env, st) && InRange(st, iv, K) && EnvKept(cx, env, s) && Keeps(cx, s, iv)
    ensures EnvHolds(Extend(env, iv, K), st) && EnvKept(cx, Extend(env, iv, K), s)
  {}

  /** A loop with a step: its variable's range holds throughout the body. */
  lemma {:induction false} CountedLoop(cx: Cx, cond: Option<Expr>, step: Option<Expr>, body: Stmt, iv: nat, K: I64,
      env: Env, st: State, fuel: nat)
    requires LoopKept(cx, cond, step, body, env) && EnvHolds(env, st) && cond == Test(iv, K) && 0 <= Get(st, iv)
        && Keeps(cx, body, iv)
    requires step.Some? && StepUb(step, iv, env) >= 0 && StepFits(step, iv, env, K)
    requires Safe(cx, Mark(cx.len, body, iv, K), None, Extend(env, iv, K))
    ensures Loop(cx, cond, step, Elide(cx, Mark(cx.len, body, iv, K), None, Extend(env, iv, K)), st, fuel)
        == Loop(cx, cond, step, body, st, fuel)
    decreases fuel, 0, 0
  {
    hide Eval, Exec, Mark, Elide;
    TestMeaning(cx, iv, K, st);
    if fuel > 0 && Get(st, iv) < K {
      var m := Mark(cx.len, body, iv, K);
      MarkEnvKept(cx, env, body, iv, K);
      MarkSame(cx.len, body, iv, K, iv);
      ExtendHolds(cx, env, iv, K, st, m);
      ElideSound(cx, m, None, Extend(env, iv, K), st, fuel - 1);
      MarkExec(cx, body, iv, K, st, fuel - 1);
      EnvStays(cx, env, body, st, fuel - 1);
      ExecKeeps(cx, body, st, fuel - 1, iv);
      var r := Exec(cx, body, st, fuel - 1);
      if r.Done? {
        StepSound(cx, step.value, iv, env, K, r.st);
        EnvStaysOpt(cx, env, step, r.st);
        CountedLoop(cx, cond, step, body, iv, K, env, Eval(cx, step.value, r.st).st, fuel - 1);
      }
    }
  }

  /** A loop that steps in its body: the range holds up to the increment. */
  lemma {:induction false} WhileLoop(cx: Cx, cond: Option<Expr>, body: Stmt, iv: nat, K: I64, j: nat, env: Env,
      st: State, fuel: nat)
    requires LoopKept(cx, cond, None, body, env) && EnvHolds(env, st) && cond == Test(iv, K) && 0 <= Get(st, iv)
        && Private(cx, iv)
    requires body.Block? && OnlyInc(body.b, j, iv, env) && StepFits(Some(body.b[j].e), iv, env, K)
    requires !Declares(body, iv) && SafeUntil(cx, body.b, j, iv, K, None, env)
    ensures Loop(cx, cond, None, ElideBody(cx, body, Some(Plan(iv, K, Some(j))), env), st, fuel)
        == Loop(cx, cond, None, body, st, fuel)
    decreases fuel, 0, 0
  {
    hide Eval, Exec;
    TestMeaning(cx, iv, K, st);
    if fuel > 0 && Get(st, iv) < K {
      WhileBody(cx, cond, body, iv, K, j, env, st, fuel - 1);
      EnvStays(cx, env, body, st, fuel - 1);
      var r := Exec(cx, body, st, fuel - 1);
      if r.Done? { WhileLoop(cx, cond, body, iv, K, j, env, r.st, fuel - 1); }
    }
  }

  lemma WhileBody(cx: Cx, cond: Option<Expr>, body: Stmt, iv: nat, K: I64, j: nat, env: Env, st: State, fuel: nat)
    requires LoopKept(cx, cond, None, body, env) && EnvHolds(env, st) && cond == Test(iv, K) && InRange(st, iv, K)
        && Private(cx, iv)
    requires body.Block? && OnlyInc(body.b, j, iv, env) && StepFits(Some(body.b[j].e), iv, env, K)
    requires !Declares(body, iv) && SafeUntil(cx, body.b, j, iv, K, None, env)
    ensures Exec(cx, ElideBody(cx, body, Some(Plan(iv, K, Some(j))), env), st, fuel) == Exec(cx, body, st, fuel)
    ensures var r := Exec(cx, body, st, fuel); r.Done? ==> 0 <= Get(r.st, iv)
    decreases fuel, Size(body), 2
  {
    BlockKept(cx, env, body.b);
    WhileSeq(cx, body.b, iv, K, j, None, env, st, fuel);
  }

  /** What WhileSeq knows of a body whose increment is statement j. */
  ghost predicate Stepping(cx: Cx, b: seq<Stmt>, iv: nat, K: I64, j: nat, env: Env) {
    && OnlyInc(b, j, iv, env) && StepFits(Some(b[j].e), iv, env, K) && Private(cx, iv)
    && forall i :: 0 <= i < |b| ==> EnvKept(cx, env, b[i]) && !Declares(b[i], iv)
  }

  /** The body with its first j statements marked and elided under the loop's range. */
  function Until(cx: Cx, b: seq<Stmt>, iv: nat, K: int, j: nat, prev: Option<Stmt>, env: Env): seq<Stmt>
    requires j <= |b|
  {
    ElideAll(cx, MarkAll(cx.len, b[..j], iv, K), prev, Extend(env, iv, K)) + ElideAll(cx, b[j..], None, env)
  }

  lemma SteppingTail(cx: Cx, b: seq<Stmt>, iv: nat, K: I64, j: nat, env: Env)
    requires 0 < j && Stepping(cx, b, iv, K, j, env)
    ensures b != [] && j <= |b| && Stepping(cx, b[1..], iv, K, j - 1, env) && Keeps(cx, b[0], iv)
        && EnvKept(cx, env, b[0])
    ensures forall i :: 0 <= i < |b| - 1 ==> EnvKept(cx, env, b[1..][i])
  {}

  /** The statements of the body from some point before the increment on. */
  lemma {:induction false} WhileSeq(cx: Cx, b: seq<Stmt>, iv: nat, K: I64, j: nat, prev: Option<Stmt>, env: Env,
      st: State, fuel: nat)
    requires Stepping(cx, b, iv, K, j, env) && SafeUntil(cx, b, j, iv, K, prev, env)
    requires EnvHolds(env, st) && InRange(st, iv, K) && EntryHolds(prev, Extend(env, iv, K), st)
    ensures ExecSeq(cx, Until(cx, b, iv, K, j, prev, env), st, fuel) == ExecSeq(cx, b, st, fuel)
    ensures var r := ExecSeq(cx, b, st, fuel); r.Done? ==> 0 <= Get(r.st, iv)
    decreases fuel, SizeAll(b), 3
  {
    hide Exec, Elide, Mark, Safe, Stepping, Until, EntryHolds, Declares, Writes;
    if j == 0 {
      WhileTail(cx, b, iv, K, prev, env, st, fuel);
    } else {
      SteppingTail(cx, b, iv, K, j, env);
      var m := Mark(cx.len, b[0], iv, K);
      WhileHead(cx, b, iv, K, j, prev, env);
      if b[0].Defer? {
        EntryNone(cx.len, b[0], iv, K, Extend(env, iv, K), st);
        WhileSeq(cx, b[1..], iv, K, j - 1, Some(m), env, st, fuel);
        var r := ExecSeq(cx, b[1..], st, fuel);
        if r.Done? {
          WhileDeferred(cx, b, iv, K, prev, env, st, fuel);
          ExecKeeps(cx, b[0], r.st, fuel, iv);
        }
      } else {
        MarkedSound(cx, b[0], iv, K, prev, env, st, fuel);
        var r := Exec(cx, b[0], st, fuel);
        if r.Done? && r.x == Normal {
          WhileSeq(cx, b[1..], iv, K, j - 1, Some(m), env, r.st, fuel);
        } else if r.Done? {
          ExecKeeps(cx, b[0], st, fuel, iv);
        }
      }
    }
  }

  lemma EntryNone(len: nat -> nat, d: Stmt, iv: nat, K: int, env: Env, st: State)
    requires d.Defer?
    ensures EntryHolds(Some(Mark(len, d, iv, K)), env, st)
  {}

  /** From the increment on. */
  lemma WhileTail(cx: Cx, b: seq<Stmt>, iv: nat, K: I64, prev: Option<Stmt>, env: Env, st: State, fuel: nat)
    requires Stepping(cx, b, iv, K, 0, env) && SafeAll(cx, b, None, env) && EnvHolds(env, st) && InRange(st, iv, K)
    ensures ExecSeq(cx, Until(cx, b, iv, K, 0, prev, env), st, fuel) == ExecSeq(cx, b, st, fuel)
    ensures var r := ExecSeq(cx, b, st, fuel); r.Done? ==> 0 <= Get(r.st, iv)
    decreases fuel, SizeAll(b), 1
  {
    hide ExecSeq, Safe, SafeAll, StepFits;
    assert b[0..] == b && Until(cx, b, iv, K, 0, prev, env) == ElideAll(cx, b, None, env);
    ElideSeqSound(cx, b, None, env, st, fuel);
    AfterInc(cx, b, iv, K, env, st, fuel);
  }

  /** The deferred statement, once the rest has run. */
  lemma WhileDeferred(cx: Cx, b: seq<Stmt>, iv: nat, K: I64, prev: Option<Stmt>, env: Env, st: State, fuel: nat)
    requires b != [] && b[0].Defer? && Unconcerned(cx, b[0], iv, K, env) && Safe(cx, b[0], None, env)
    requires (forall i :: 0 <= i < |b| ==> EnvKept(cx, env, b[i])) && EnvHolds(env, st)
    ensures var r := ExecSeq(cx, b[1..], st, fuel);
      var e := Elide(cx, Mark(cx.len, b[0], iv, K), prev, Extend(env, iv, K));
      r.Done? ==> Exec(cx, e, r.st, fuel) == Exec(cx, b[0], r.st, fuel)
    decreases fuel, SizeAll(b), 1
  {
    hide Exec, ExecSeq, Elide, Mark, Safe, EnvHolds, EnvKept;
    var r := ExecSeq(cx, b[1..], st, fuel);
    if r.Done? {
      SeqEnvStays(cx, env, b[1..], st, fuel);
      NoEntry(env, r.st);
      ElideSound(cx, b[0], None, env, r.st, fuel);
      DeferHead(cx, b[0], iv, K, prev, env);
    }
  }

  lemma NoEntry(env: Env, st: State)
    ensures EntryHolds(None, env, st)
  {}

  lemma DeferHead(cx: Cx, d: Stmt, iv: nat, K: int, prev: Option<Stmt>, env: Env)
    requires d.Defer? && Unconcerned(cx, d, iv, K, env)
    ensures Elide(cx, Mark(cx.len, d, iv, K), prev, Extend(env, iv, K)) == Elide(cx, d, None, env)
  {}

  /** One statement, marked and elided with the loop's range in force. */
  lemma MarkedSound(cx: Cx, s: Stmt, iv: nat, K: I64, prev: Option<Stmt>, env: Env, st: State, fuel: nat)
    requires Safe(cx, Mark(cx.len, s, iv, K), prev, Extend(env, iv, K)) && EnvKept(cx, env, s) && Keeps(cx, s, iv)
    requires EnvHolds(env, st) && InRange(st, iv, K) && EntryHolds(prev, Extend(env, iv, K), st)
    ensures var m, env' := Mark(cx.len, s, iv, K), Extend(env, iv, K);
      && Exec(cx, Elide(cx, m, prev, env'), st, fuel) == Exec(cx, s, st, fuel)
      && var r := Exec(cx, s, st, fuel);
         r.Done? && r.x == Normal ==> EnvHolds(env, r.st) && InRange(r.st, iv, K) && EntryHolds(Some(m), env', r.st)
    decreases fuel, Size(s), 2
  {
    var m, env' := Mark(cx.len, s, iv, K), Extend(env, iv, K);
    MarkEnvKept(cx, env, s, iv, K);
    MarkSame(cx.len, s, iv, K, iv);
    ExtendHolds(cx, env, iv, K, st, m);
    ElideSound(cx, m, prev, env', st, fuel);
    MarkExec(cx, s, iv, K, st, fuel);
    EnvStays(cx, env, s, st, fuel);
    ExecKeeps(cx, s, st, fuel, iv);
    var r := Exec(cx, s, st, fuel);
    if r.Done? && r.x == Normal { EntryAfter(cx, m, env', st, fuel); }
  }

  lemma WhileHead(cx: Cx, b: seq<Stmt>, iv: nat, K: I64, j: nat, prev: Option<Stmt>, env: Env)
    requires 0 < j <= |b|
    ensures var m := Mark(cx.len, b[0], iv, K);
      var env' := Extend(env, iv, K);
      var c := Until(cx, b, iv, K, j, prev, env);
      && c != [] && c[0] == Elide(cx, m, prev, env') && c[0].Defer? == b[0].Defer?
      && c[1..] == Until(cx, b[1..], iv, K, j - 1, Some(m), env)
  {
    hide Elide, Mark, ElideAll, MarkAll, Extend;
    var pre, env', m := b[..j], Extend(env, iv, K), Mark(cx.len, b[0], iv, K);
    assert pre[0] == b[0] && pre[1..] == b[1..][..j - 1] && b[j..] == b[1..][j - 1..];
    var ms := MarkAll(cx.len, pre[1..], iv, K);
    MarkAllStep(cx.len, pre, iv, K);
    ElideAllStep(cx, m, ms, prev, env');
    SameKind(cx, b[0], iv, K, prev, env');
    Regrouped(Elide(cx, m, prev, env'), ElideAll(cx, ms, Some(m), env'), ElideAll(cx, b[j..], None, env));
  }

  lemma MarkAllStep(len: nat -> nat, b: seq<Stmt>, iv: nat, K: int)
    requires b != []
    ensures MarkAll(len, b, iv, K) == [Mark(len, b[0], iv, K)] + MarkAll(len, b[1..], iv, K)
  {}

  lemma ElideAllStep(cx: Cx, m: Stmt, ms: seq<Stmt>, prev: Option<Stmt>, env: Env)
    ensures ElideAll(cx, [m] + ms, prev, env) == [Elide(cx, m, prev, env)] + ElideAll(cx, ms, Some(m), env)
  {
    assert ([m] + ms)[0] == m && ([m] + ms)[1..] == ms;
  }

  lemma Regrouped(e: Stmt, es: seq<Stmt>, rest: seq<Stmt>)
    ensures ([e] + es + rest)[0] == e && ([e] + es + rest)[1..] == es + rest
  {}

  lemma SameKind(cx: Cx, s: Stmt, iv: nat, K: int, prev: Option<Stmt>, env: Env)
    ensures Elide(cx, Mark(cx.len, s, iv, K), prev, env).Defer? == s.Defer?
  {}

  /** From the increment on, the variable only grows. */
  lemma AfterInc(cx: Cx, b: seq<Stmt>, iv: nat, K: I64, env: Env, st: State, fuel: nat)
    requires OnlyInc(b, 0, iv, env) && StepFits(Some(b[0].e), iv, env, K) && EnvHolds(env, st) && InRange(st, iv, K)
    requires Private(cx, iv) && forall i :: 0 <= i < |b| ==> !Declares(b[i], iv)
    ensures var r := ExecSeq(cx, b, st, fuel); r.Done? ==> 0 <= Get(r.st, iv)
  {
    StepSound(cx, b[0].e, iv, env, K, st);
    forall i | 0 <= i < |b| - 1 ensures Keeps(cx, b[1..][i], iv) { assert b[1..][i] == b[i + 1]; }
    var r := Exec(cx, b[0], st, fuel);
    SeqKeeps(cx, b[1..], r.st, fuel, iv);
  }

  // ----- the whole function -----

  /** Running a function with the checks that the pass drops is running it with all of them. */
  lemma ElideFunction(cx: Cx, body: Stmt, st: State, fuel: nat)
    requires Safe(cx, body, None, [])
    ensures Exec(cx, Elide(cx, body, None, []), st, fuel) == Exec(cx, body, st, fuel)
  {
    ElideSound(cx, body, None, [], st, fuel);
  }

  predicate UnmarkedE(e: Expr) {
    match e
    case Index(_, i, nb) => !nb && UnmarkedE(i)
    case Deref(p) => UnmarkedE(p)
    case Bin(_, l, r) => UnmarkedE(l) && UnmarkedE(r)
    case Logic(_, l, r) => UnmarkedE(l) && UnmarkedE(r)
    case Assign(l, r) => UnmarkedE(l) && UnmarkedE(r)
    case OpAssign(_, l, r) => UnmarkedE(l) && UnmarkedE(r)
    case Call(args) => forall i :: 0 <= i < |args| ==> UnmarkedE(args[i])
    case _ => true
  }

  predicate UnmarkedOpt(e: Option<Expr>) { e.Some? ==> UnmarkedE(e.value) }

  predicate Unmarked(s: Stmt) {
    match s
    case Block(b) => forall i :: 0 <= i < |b| ==> Unmarked(b[i])
    case Do(e) => UnmarkedE(e)
    case If(c, t, f) => UnmarkedE(c) && Unmarked(t) && (f.Some? ==> Unmarked(f.value))
    case For(init, cond, step, body) => (init.Some? ==> Unmarked(init.value)) && UnmarkedOpt(cond)
        && UnmarkedOpt(step) && Unmarked(body)
    case Defer(d) => Unmarked(d)
    case Return(e) => UnmarkedE(e)
    case _ => true
  }

  lemma {:induction false} CheckedLocate(cx: Cx, e: Expr, st: State)
    requires UnmarkedE(e)
    ensures Locate(cx, e, st) != Lost(Wild)
    decreases e, 0
  {
    match e
    case Index(_, i, _) => CheckedEval(cx, i, st);
    case Deref(p) => CheckedEval(cx, p, st);
    case _ =>
  }

  lemma {:induction false} CheckedEval(cx: Cx, e: Expr, st: State)
    requires UnmarkedE(e)
    ensures Eval(cx, e, st) != Err(Wild)
    decreases e, 1
  {
    match e
    case Index(_, _, _) => CheckedLocate(cx, e, st);
    case Deref(_) => CheckedLocate(cx, e, st);
    case Bin(_, l, r) =>
      CheckedEval(cx, r, st);
      var q := Eval(cx, r, st);
      if q.Val? { CheckedEval(cx, l, q.st); }
    case Logic(_, l, r) =>
      CheckedEval(cx, l, st);
      var q := Eval(cx, l, st);
      if q.Val? { CheckedEval(cx, r, q.st); }
    case Assign(l, r) =>
      CheckedLocate(cx, l, st);
      var q := Locate(cx, l, st);
      if q.Found? { CheckedEval(cx, r, q.st); }
    case OpAssign(_, l, r) =>
      CheckedLocate(cx, l, st);
      var q := Locate(cx, l, st);
      if q.Found? { CheckedEval(cx, r, q.st); }
    case Call(args) => CheckedArgs(cx, args, st);
    case _ =>
  }

  lemma {:induction false} CheckedArgs(cx: Cx, args: seq<Expr>, st: State)
    requires forall i :: 0 <= i < |args| ==> UnmarkedE(args[i])
    ensures EvalArgs(cx, args, st) != NoArgs(Wild)
    decreases args, 0
  {
    if args != [] {
      CheckedEval(cx, args[0], st);
      var r := Eval(cx, args[0], st);
      if r.Val? { CheckedArgs(cx, args[1..], r.st); }
    }
  }

  lemma {:induction false} CheckedExec(cx: Cx, s: Stmt, st: State, fuel: nat)
    requires Unmarked(s)
    ensures Exec(cx, s, st, fuel) != Failed(Wild)
    decreases fuel, s, 1
  {
    match s
    case Block(b) => CheckedSeq(cx, b, st, fuel);
    case Do(e) => CheckedEval(cx, e, st);
    case If(c, t, f) =>
      CheckedEval(cx, c, st);
      var r := Eval(cx, c, st);
      if r.Val? {
        CheckedExec(cx, t, r.st, fuel);
        if f.Some? { CheckedExec(cx, f.value, r.st, fuel); }
      }
    case For(init, cond, step, body) =>
      if init.None? {
        CheckedLoop(cx, cond, step, body, st, fuel);
      } else {
        CheckedExec(cx, init.value, st, fuel);
        var r := Exec(cx, init.value, st, fuel);
        if r.Done? { CheckedLoop(cx, cond, step, body, r.st, fuel); }
      }
    case Defer(d) => CheckedExec(cx, d, st, fuel);
    case Return(e) => CheckedEval(cx, e, st);
    case _ =>
  }

  lemma {:induction false} CheckedSeq(cx: Cx, b: seq<Stmt>, st: State, fuel: nat)
    requires forall i :: 0 <= i < |b| ==> Unmarked(b[i])
    ensures ExecSeq(cx, b, st, fuel) != Failed(Wild)
    decreases fuel, b, 0
  {
    if b != [] {
      if b[0].Defer? {
        CheckedSeq(cx, b[1..], st, fuel);
        var r := ExecSeq(cx, b[1..], st, fuel);
        if r.Done? { CheckedExec(cx, b[0], r.st, fuel); }
      } else {
        CheckedExec(cx, b[0], st, fuel);
        var r := Exec(cx, b[0], st, fuel);
        if r.Done? { CheckedSeq(cx, b[1..], r.st, fuel); }
      }
    }
  }

  lemma {:induction false} CheckedLoop(cx: Cx, cond: Option<Expr>, step: Option<Expr>, body: Stmt, st: State, fuel: nat)
    requires UnmarkedOpt(cond) && UnmarkedOpt(step) && Unmarked(body)
    ensures Loop(cx, cond, step, body, st, fuel) != Failed(Wild)
    decreases fuel, body, 0
  {
    hide Eval, Exec, Unmarked, UnmarkedE;
    if fuel > 0 {
      if cond.Some? { CheckedEval(cx, cond.value, st); }
      var t := EvalOpt(cx, cond, st);
      if t.Val? {
        CheckedExec(cx, body, t.st, fuel - 1);
        var r := Exec(cx, body, t.st, fuel - 1);
        if r.Done? {
          if step.Some? { CheckedEval(cx, step.value, r.st); }
          var n := EvalOpt(cx, step, r.st);
          if n.Val? { CheckedLoop(cx, cond, step, body, n.st, fuel - 1); }
        }
      }
    }
  }

  /** So no access that lost its check is ever outside its array. */
  lemma NeverWild(cx: Cx, body: Stmt, st: State, fuel: nat)
    requires Safe(cx, body, None, []) && Unmarked(body)
    ensures Exec(cx, Elide(cx, body, None, []), st, fuel) != Failed(Wild)
  {
    ElideFunction(cx, body, st, fuel);
    CheckedExec(cx, body, st, fuel);
  }

  // ----- what the pass gets wrong, and what it gets done -----

  /** `while (i < K) { defer a[i]; i = i + 1 }`, the access marked or not. */
  function EarlyDefer(i: nat, a: nat, K: I64, marked: bool): Stmt {
    For(None, Test(i, K), None, Block([Defer(Do(Index(a, Var(i), marked))),
        Increment(i)]))
  }

  function FromZero(i: nat, loop: Stmt): Stmt { Block([Do(Assign(Zero(i), Num(0))), loop]) }

  /** The deferred access runs after the increment, so it always reaches the array's end; the pass
      marks it all the same, for every array length. */
  lemma EarlyDeferWild(cx: Cx, i: nat, a: nat, K: I64, st: State, fuel: nat)
    requires Private(cx, i) && 0 < K < NN_MAX && cx.len(a) == K && fuel >= K
    ensures Exec(cx, FromZero(i, EarlyDefer(i, a, K, false)), st, fuel) == Failed(Panic)
    ensures Exec(cx, Elide(cx, FromZero(i, EarlyDefer(i, a, K, false)), None, []), st, fuel) == Failed(Wild)
  {
    var st0 := Store(st, VarLoc(i), 0);
    EarlyDeferElided(cx, i, a, K);
    forall marked: bool ensures Exec(cx, FromZero(i, EarlyDefer(i, a, K, marked)), st, fuel)
        == Failed(if marked then Wild else Panic) {
      FromZeroRuns(cx, i, EarlyDefer(i, a, K, marked), st, fuel);
      EarlyDeferLoop(cx, i, a, K, marked, st0, fuel);
    }
  }

  lemma FromZeroRuns(cx: Cx, i: nat, loop: Stmt, st: State, fuel: nat)
    requires !loop.Defer?
    ensures var r := Exec(cx, loop, Store(st, VarLoc(i), 0), fuel);
      !r.Done? ==> Exec(cx, FromZero(i, loop), st, fuel) == r
  {
    var start := Do(Assign(Zero(i), Num(0)));
    var b := [start, loop];
    assert FromZero(i, loop) == Block(b);
    assert b[1..] == [loop] && [loop][1..] == [];
    assert Locate(cx, Zero(i), st) == Found(VarLoc(i), st);
    assert Eval(cx, Num(0), st) == Val(0, st);
    assert Eval(cx, start.e, st) == Val(0, Store(st, VarLoc(i), 0));
    assert Exec(cx, start, st, fuel) == Done(Normal, Store(st, VarLoc(i), 0));
    assert ExecSeq(cx, b, st, fuel) == ExecSeq(cx, [loop], Store(st, VarLoc(i), 0), fuel);
    assert Exec(cx, FromZero(i, loop), st, fuel) == ExecSeq(cx, b, st, fuel);
  }

  lemma {:induction false} EarlyDeferLoop(cx: Cx, i: nat, a: nat, K: I64, marked: bool, st: State, fuel: nat)
    requires 0 <= Get(st, i) < K < NN_MAX && cx.len(a) == K && fuel >= K - Get(st, i)
    ensures var s := EarlyDefer(i, a, K, marked);
      Loop(cx, s.cond, s.step, s.body, st, fuel) == Failed(if marked then Wild else Panic)
    decreases fuel
  {
    var s := EarlyDefer(i, a, K, marked);
    TestMeaning(cx, i, K, st);
    EarlyDeferBody(cx, i, a, K, marked, st, fuel - 1);
    if Get(st, i) + 1 < K {
      EarlyDeferLoop(cx, i, a, K, marked, Store(st, VarLoc(i), Get(st, i) + 1), fuel - 1);
    }
  }

  lemma EarlyDeferBody(cx: Cx, i: nat, a: nat, K: I64, marked: bool, st: State, fuel: nat)
    requires 0 <= Get(st, i) < K < NN_MAX && cx.len(a) == K
    ensures Exec(cx, EarlyDefer(i, a, K, marked).body, st, fuel) ==
            if Get(st, i) + 1 < K then Done(Normal, Store(st, VarLoc(i), Get(st, i) + 1))
                else Failed(if marked then Wild else Panic)
  {
    var d, inc := Do(Index(a, Var(i), marked)), Increment(i);
    var b := [Defer(d), inc];
    assert EarlyDefer(i, a, K, marked).body == Block(b);
    var st1 := Store(st, VarLoc(i), Get(st, i) + 1);
    NoWrap(Get(st, i) + 1);
    assert Locate(cx, Var(i), st) == Found(VarLoc(i), st) && Eval(cx, Var(i), st) == Val(Get(st, i), st)
        && Eval(cx, Num(1), st) == Val(1, st);
    assert Eval(cx, Bin(Source.Add, Var(i), Num(1)), st) == Val(Get(st, i) + 1, st);
    assert Eval(cx, inc.e, st) == Val(Get(st, i) + 1, st1);
    assert b[1..] == [inc] && [inc][1..] == [];
    assert ExecSeq(cx, [inc], st, fuel) == Done(Normal, st1);
    assert Eval(cx, Var(i), st1) == Val(Get(st1, i), st1);
    assert Locate(cx, d.e, st1) == if Get(st, i) + 1 < K then Found(ElemLoc(a, Get(st, i) + 1), st1)
        else Lost(if marked then Wild else Panic);
    assert Exec(cx, Defer(d), st1, fuel) == Exec(cx, d, st1, fuel) == if Get(st, i) + 1 < K then Done(Normal, st1)
        else Failed(if marked then Wild else Panic);
  }

  /** `i = i + 1`. */
  function Increment(i: nat): Stmt { Do(Assign(Var(i), Bin(Source.Add, Var(i), Num(1)))) }

  /** The increment is found behind the defer. */
  lemma EarlyDeferInc(i: nat, a: nat, K: I64)
    ensures BodyInc(EarlyDefer(i, a, K, false).body, i, []) == Some(1)
  {
    var d := Do(Index(a, Var(i), false));
    var b := [Defer(d), Increment(i)];
    assert StepOf(Some(b[1].e), i) == Some(Num(1));
    assert !WritesE(d.e, i) && !Writes(d, i) && !Writes(b[0], i) && !IsWrite(b[0], i);
    assert IncFrom(b, 2, Some(1), i, []) == Some(1);
    assert IncFrom(b, 1, None, i, []) == Some(1);
  }

  lemma EarlyDeferPlan(cx: Cx, i: nat, a: nat, K: I64)
    requires Private(cx, i) && 0 < K < NN_MAX
    ensures var s := EarlyDefer(i, a, K, false);
      PlanFor(cx, None, s.cond, None, s.body, Some(Do(Assign(Zero(i), Num(0)))), []) == Some(Plan(i, K, Some(1)))
  {
    var s := EarlyDefer(i, a, K, false);
    EarlyDeferInc(i, a, K);
    assert StepOf(Some(Increment(i).e), i) == Some(Num(1));
  }

  /** The access is marked and stays marked. */
  lemma EarlyDeferMarked(cx: Cx, i: nat, a: nat, K: I64, env: Env)
    requires cx.len(a) == K
    ensures var b, m := [Defer(Do(Index(a, Var(i), false)))], [Defer(Do(Index(a, Var(i), true)))];
      MarkAll(cx.len, b, i, K) == m && ElideAll(cx, m, None, env) == m
  {
    var d, d' := Do(Index(a, Var(i), false)), Do(Index(a, Var(i), true));
    assert [Defer(d)][1..] == [] && [Defer(d')][1..] == [];
    assert MarkE(cx.len, d.e, i, K) == d'.e;
    assert Mark(cx.len, Defer(d), i, K) == Defer(d');
    assert Elide(cx, d', None, env) == d';
    assert Elide(cx, Defer(d'), None, env) == Defer(d');
  }

  lemma EarlyDeferBodyElided(cx: Cx, i: nat, a: nat, K: I64)
    requires cx.len(a) == K
    ensures var plan := Some(Plan(i, K, Some(1)));
      ElideBody(cx, EarlyDefer(i, a, K, false).body, plan, []) == EarlyDefer(i, a, K, true).body
  {
    var b := EarlyDefer(i, a, K, false).body.b;
    EarlyDeferMarked(cx, i, a, K, Extend([], i, K));
    assert b[..1] == [b[0]] && b[1..] == [b[1]] && [b[1]][1..] == [];
    assert Elide(cx, b[1], None, []) == b[1];
    assert ElideAll(cx, [b[1]], None, []) == [b[1]];
  }

  lemma EarlyDeferElided(cx: Cx, i: nat, a: nat, K: I64)
    requires Private(cx, i) && 0 < K < NN_MAX && cx.len(a) == K
    ensures Elide(cx, FromZero(i, EarlyDefer(i, a, K, false)), None, []) == FromZero(i, EarlyDefer(i, a, K, true))
  {
    hide PlanFor, ElideBody;
    var s, t := EarlyDefer(i, a, K, false), EarlyDefer(i, a, K, true);
    var start := Do(Assign(Zero(i), Num(0)));
    EarlyDeferPlan(cx, i, a, K);
    EarlyDeferBodyElided(cx, i, a, K);
    assert Elide(cx, s, Some(start), []) == t;
    assert [start, s][1..] == [s] && [s][1..] == [];
    assert Elide(cx, start, None, []) == start;
    assert ElideAll(cx, [s], Some(start), []) == [t];
    assert ElideAll(cx, [start, s], None, []) == [start, t];
  }

  /** The variable a loop tests. */
  function Tested(cond: Option<Expr>): Option<nat> {
    match cond
    case Some(Bin(Lt, Var(c), Num(_))) => Some(c)
    case _ => None
  }

  /** A statement that gives iv its first value: none, or one with a bound. */
  ghost predicate Starts(s: Option<Stmt>, iv: nat, env: Env) {
    && s.Some? && s.value.Do?
    && (s.value.e == Zero(iv)
      || exists r :: (s.value.e == Assign(Var(iv), r) || s.value.e == Assign(Zero(iv), r)) && Ub(r, env) >= 0)
  }

  /** An increment of iv by s, where iv < K: s has a bound, the sum does not wrap, and if s is a variable
      neither the body nor the step writes it. */
  ghost predicate Steps(e: Option<Expr>, iv: nat, K: int, env: Env, body: Stmt, step: Option<Expr>) {
    exists s ::
      && (e == Some(Assign(Var(iv), Bin(Source.Add, Var(iv), s))) || e == Some(OpAssign(Source.Add, Var(iv), s)))
      && 0 <= Ub(s, env) <= NN_MAX - K && (s.Var? ==> !Writes(body, s.x) && !WritesOpt(step, s.x))
  }

  /** The loops that are elided, in so many words. */
  ghost predicate Shape(cx: Cx, init: Option<Stmt>, cond: Option<Expr>, step: Option<Expr>, body: Stmt,
      prev: Option<Stmt>, env: Env, p: Plan)
  {
    && 0 <= p.K <= NN_MAX && cond == Some(Bin(Source.Lt, Var(p.iv), Num(p.K)))
    && p.iv !in cx.globals && p.iv !in cx.taken && Starts(if init.Some? then init else prev, p.iv, env)
    && if step.Some? then p.inc.None? && !Writes(body, p.iv) && Steps(step, p.iv, p.K, env, body, step)
       else
         && p.inc.Some? && body.Block? && p.inc.value < |body.b| && body.b[p.inc.value].Do?
         && Steps(Some(body.b[p.inc.value].e), p.iv, p.K, env, body, None)
         && forall j :: 0 <= j < |body.b| && j != p.inc.value ==> !Writes(body.b[j], p.iv)
  }

  lemma StartsIff(s: Option<Stmt>, iv: nat, env: Env)
    ensures Starts(s, iv, env) <==> EntryUb(s, iv, env) >= 0
  {
    hide Ub;
    if EntryUb(s, iv, env) >= 0 && s.value.e.Assign? { assert Ub(s.value.e.r, env) >= 0; }
  }

  lemma StepsIff(e: Option<Expr>, iv: nat, K: int, env: Env, body: Stmt, step: Option<Expr>)
    ensures Steps(e, iv, K, env, body, step)
        <==> StepUb(e, iv, env) >= 0 && StepFits(e, iv, env, K) && StepStays(e, iv, step, body)
  {
    hide Ub, Writes, WritesOpt;
    if StepOf(e, iv).Some? { assert Ub(StepOf(e, iv).value, env) == StepUb(e, iv, env); }
  }

  /** Statement k is an increment by something with a bound, and no other statement writes iv. */
  ghost predicate OneInc(b: seq<Stmt>, k: nat, iv: nat, env: Env) {
    && k < |b| && b[k].Do? && StepUb(Some(b[k].e), iv, env) >= 0
    && forall j :: 0 <= j < |b| && j != k ==> !Writes(b[j], iv)
  }

  lemma IncIff(body: Stmt, iv: nat, env: Env, k: nat)
    requires body.Block?
    ensures OnlyInc(body.b, k, iv, env) <==> OneInc(body.b, k, iv, env)
  {
    hide Ub, Writes;
  }

  /** The pass takes exactly those. */
  lemma PlanIff(cx: Cx, init: Option<Stmt>, cond: Option<Expr>, step: Option<Expr>, body: Stmt, prev: Option<Stmt>,
      env: Env, p: Plan)
    ensures PlanFor(cx, init, cond, step, body, prev, env) == Some(p)
        <==> Shape(cx, init, cond, step, body, prev, env, p)
  {
    hide StepStays, StepFits, StepUb, EntryUb, Writes, Starts, Steps, OnlyInc;
    if Tested(cond).Some? {
      var c := Tested(cond).value;
      StartsIff(if init.Some? then init else prev, c, env);
      StepsIff(step, c, p.K, env, body, step);
      if body.Block? { PlanInBody(cx, init, cond, step, body, prev, env, p); }
    }
  }

  lemma PlanInBody(cx: Cx, init: Option<Stmt>, cond: Option<Expr>, step: Option<Expr>, body: Stmt, prev: Option<Stmt>,
      env: Env, p: Plan)
    requires Tested(cond).Some? && body.Block?
    ensures var c := Tested(cond).value;
      var r := BodyInc(body, c, env);
      && (r.Some? ==> OnlyInc(body.b, r.value, c, env))
      && (p.inc.Some? && OnlyInc(body.b, p.inc.value, c, env) ==> r == p.inc)
    ensures p.inc.Some? ==>
      (OnlyInc(body.b, p.inc.value, Tested(cond).value, env) <==> OneInc(body.b, p.inc.value, Tested(cond).value, env))
    ensures p.inc.Some? && p.inc.value < |body.b| && body.b[p.inc.value].Do? ==>
      var inc := Some(body.b[p.inc.value].e);
      var c := Tested(cond).value;
      Steps(inc, c, p.K, env, body, None) <==>
        StepUb(inc, c, env) >= 0 && StepFits(inc, c, env, p.K) && StepStays(inc, c, None, body)
  {
    hide StepStays, StepFits, StepUb, EntryUb, Writes, Starts, Steps;
    var c := Tested(cond).value;
    BodyIncSpec(body, c, env);
    var r := BodyInc(body, c, env);
    if p.inc.Some? {
      IncIff(body, c, env, p.inc.value);
      if p.inc.value < |body.b| && body.b[p.inc.value].Do? {
        StepsIff(Some(body.b[p.inc.value].e), c, p.K, env, body, None);
      }
      if r.Some? && OnlyInc(body.b, p.inc.value, c, env) && p.inc != r { IsWriteWrites(body.b[r.value], c); }
    }
  }
}
