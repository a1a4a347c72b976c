/** The elision pass as it runs: it collects address-taken variables in an array of 64, keeps the
    proven ranges in a shared array of 64 of which each level owns a prefix, and scans statement
    lists. Every method is proved against the functions of `Elision`. */
module ElisionPass {
  import opened Common
  import Source
  import opened Checked
  import opened Elision
  import opened ElisionMarks

  // ----- address-taken variables -----

  function Elems(s: seq<nat>): set<nat> { set x | x in s }

  predicate Distinct(s: seq<nat>) { forall i, j :: 0 <= i < j < |s| ==> s[i] != s[j] }

  lemma {:induction false} DistinctSize(s: seq<nat>)
    requires Distinct(s)
    ensures |Elems(s)| == |s|
    decreases s
  {
    if s != [] {
      var n := |s| - 1;
      DistinctSize(s[..n]);
      assert Elems(s) == Elems(s[..n]) + {s[n]};
      assert s[n] !in s[..n];
    }
  }

  /** The variables whose address e takes. */
  function TakenE(e: Expr): set<nat> {
    match e
    case Addr(x) => {x}
    case Index(_, i, _) => TakenE(i)
    case Deref(p) => TakenE(p)
    case Bin(_, l, r) => TakenE(l) + TakenE(r)
    case Logic(_, l, r) => TakenE(l) + TakenE(r)
    case Assign(l, r) => TakenE(l) + TakenE(r)
    case OpAssign(_, l, r) => TakenE(l) + TakenE(r)
    case Call(args) => TakenArgs(args)
    case _ => {}
  }

  function TakenArgs(args: seq<Expr>): set<nat> { if args == [] then {} else TakenE(args[0]) + TakenArgs(args[1..]) }

  function TakenOpt(e: Option<Expr>): set<nat> { if e.None? then {} else TakenE(e.value) }

  function Taken(s: Stmt): set<nat> {
    match s
    case Block(b) => TakenAll(b)
    case Do(e) => TakenE(e)
    case If(c, t, f) => TakenE(c) + Taken(t) + (if f.None? then {} else Taken(f.value))
    case For(init, cond, step, body) => TakenOpt(cond) + (if init.None? then {} else Taken(init.value))
        + TakenOpt(step) + Taken(body)
    case Defer(d) => Taken(d)
    case Return(e) => TakenE(e)
    case _ => {}
  }

  function TakenAll(b: seq<Stmt>): set<nat> { if b == [] then {} else Taken(b[0]) + TakenAll(b[1..]) }

  /** A node that takes the address of variable x. */
  function Addressing(x: nat): Node -> bool {
    (n: Node) => n == E(Addr(x))
  }

  lemma {:induction false} TakenHasE(e: Expr, x: nat)
    ensures x in TakenE(e) <==> HasE(e, Addressing(x))
    decreases e, 1
  {
    match e
    case Index(_, i, _) => TakenHasE(i, x);
    case Deref(p) => TakenHasE(p, x);
    case Bin(_, l, r) => TakenHasE(l, x); TakenHasE(r, x);
    case Logic(_, l, r) => TakenHasE(l, x); TakenHasE(r, x);
    case Assign(l, r) => TakenHasE(l, x); TakenHasE(r, x);
    case OpAssign(_, l, r) => TakenHasE(l, x); TakenHasE(r, x);
    case Call(args) => TakenHasArgs(args, x);
    case _ =>
  }

  lemma {:induction false} TakenHasArgs(args: seq<Expr>, x: nat)
    ensures x in TakenArgs(args) <==> exists i :: 0 <= i < |args| && HasE(args[i], Addressing(x))
    decreases args, 0
  {
    hide TakenE, HasE;
    if args != [] {
      TakenHasE(args[0], x);
      TakenHasArgs(args[1..], x);
      assert forall i :: 0 < i < |args| ==> args[i] == args[1..][i - 1];
      if i :| 0 <= i < |args| - 1 && HasE(args[1..][i], Addressing(x)) { assert args[i + 1] == args[1..][i]; }
    }
  }

  lemma {:induction false} TakenHas(s: Stmt, x: nat)
    ensures x in Taken(s) <==> Has(s, Addressing(x))
    decreases s, 1
  {
    hide TakenE, HasE;
    match s
    case Block(b) => TakenHasAll(b, x);
    case Do(e) => TakenHasE(e, x);
    case If(c, t, f) =>
      TakenHasE(c, x);
      TakenHas(t, x);
      if f.Some? { TakenHas(f.value, x); }
    case For(init, cond, step, body) =>
      if init.Some? { TakenHas(init.value, x); }
      if cond.Some? { TakenHasE(cond.value, x); }
      if step.Some? { TakenHasE(step.value, x); }
      TakenHas(body, x);
    case Defer(d) => TakenHas(d, x);
    case Return(e) => TakenHasE(e, x);
    case _ =>
  }

  lemma {:induction false} TakenHasAll(b: seq<Stmt>, x: nat)
    ensures x in TakenAll(b) <==> exists i :: 0 <= i < |b| && Has(b[i], Addressing(x))
    decreases b, 0
  {
    hide Taken, Has;
    if b != [] {
      TakenHas(b[0], x);
      TakenHasAll(b[1..], x);
      assert forall i :: 0 < i < |b| ==> b[i] == b[1..][i - 1];
      if i :| 0 <= i < |b| - 1 && Has(b[1..][i], Addressing(x)) { assert b[i + 1] == b[1..][i]; }
    }
  }

  /** The variables that are collected are those whose address is taken at some place. */
  lemma TakenIff(s: Stmt, x: nat)
    ensures x in Taken(s) <==> exists path :: Leads(S(s), path, Addressing(x))
  {
    TakenHas(s, x);
    HasIff(s, Addressing(x));
  }

  /** The first n entries of the array are distinct, and n of at most 64 are in use. */
  ghost predicate Table(taken: array<nat>, n: nat)
    reads taken
  {
    taken.Length == 64 && n <= 64 && Distinct(taken[..n])
  }

  /** From the variables `was` the scan goes on to `now`, by adding `more`; it fails only when there
      is no room for them. */
  ghost predicate Scanned(was: set<nat>, more: set<nat>, ok: bool, now: set<nat>) {
    (ok ==> now == was + more && |was + more| <= 64) && (!ok ==> |was + more| > 64)
  }

  lemma ScannedBoth(was: set<nat>, a: set<nat>, ok1: bool, mid: set<nat>, b: set<nat>, ok2: bool, now: set<nat>)
    requires Scanned(was, a, ok1, mid) && (ok1 ==> Scanned(mid, b, ok2, now))
    ensures Scanned(was, a + b, ok1 && ok2, now)
  {
    assert was + (a + b) == (was + a) + b;
    if !ok1 { Grows(was + a, b); }
  }

  lemma {:induction false} Grows(a: set<nat>, b: set<nat>)
    ensures |a + b| >= |a|
    decreases |b|
  {
    if b != {} {
      var x :| x in b;
      var s := a + (b - {x});
      Grows(a, b - {x});
      assert a + b == s + {x};
      assert |s + {x}| >= |s| by { if x in s { assert s + {x} == s; } }
    } else {
      assert a + b == a;
    }
  }

  method AddrAdd(taken: array<nat>, n: nat, v: nat) returns (ok: bool, m: nat)
    requires Table(taken, n)
    modifies taken
    ensures ok ==> Table(taken, m)
    ensures Scanned(old(Elems(taken[..n])), {v}, ok, if ok then Elems(taken[..m]) else {})
  {
    DistinctSize(taken[..n]);
    ghost var was := Elems(taken[..n]);
    var i := 0;
    while i < n
      invariant 0 <= i <= n && forall j :: 0 <= j < i ==> taken[j] != v
    {
      if taken[i] == v {
        assert taken[..n][i] == v;
        assert was + {v} == was;
        return true, n;
      }
      i := i + 1;
    }
    assert v !in was;
    assert |was + {v}| == n + 1;
    if n == 64 { return false, n; }
    taken[n] := v;
    assert taken[..n + 1] == old(taken[..n]) + [v];
    ok, m := true, n + 1;
  }

  method AddrTaken(taken: array<nat>, n: nat, v: nat) returns (b: bool)
    requires n <= taken.Length
    ensures b == (v in Elems(taken[..n]))
  {
    var i := 0;
    while i < n
      invariant 0 <= i <= n && v !in taken[..i]
    {
      if taken[i] == v {
        assert taken[..n][i] == v;
        return true;
      }
      i := i + 1;
    }
    b := false;
  }

  lemma NothingScanned(taken: array<nat>, n: nat)
    requires Table(taken, n)
    ensures Scanned(Elems(taken[..n]), {}, true, Elems(taken[..n]))
  {
    DistinctSize(taken[..n]);
    assert Elems(taken[..n]) + {} == Elems(taken[..n]);
  }

  method AddrExpr(e: Expr, taken: array<nat>, n: nat) returns (ok: bool, m: nat)
    requires Table(taken, n)
    modifies taken
    ensures ok ==> Table(taken, m)
    ensures Scanned(old(Elems(taken[..n])), TakenE(e), ok, if ok then Elems(taken[..m]) else {})
    decreases e, 1
  {
    hide Scanned, Elems, Distinct;
    ok, m := true, n;
    if e.Addr? {
      ok, m := AddrAdd(taken, n, e.x);
    } else if e.Index? {
      ok, m := AddrExpr(e.i, taken, n);
    } else if e.Deref? {
      ok, m := AddrExpr(e.p, taken, n);
    } else if e.Bin? || e.Logic? || e.Assign? || e.OpAssign? {
      ok, m := AddrOperands(e, taken, n);
    } else if e.Call? {
      ok, m := AddrArgs(e.args, taken, n);
    } else {
      NothingScanned(taken, n);
    }
  }

  method AddrOperands(e: Expr, taken: array<nat>, n: nat) returns (ok: bool, m: nat)
    requires (e.Bin? || e.Logic? || e.Assign? || e.OpAssign?) && Table(taken, n)
    modifies taken
    ensures ok ==> Table(taken, m)
    ensures Scanned(old(Elems(taken[..n])), TakenE(e.l) + TakenE(e.r), ok, if ok then Elems(taken[..m]) else {})
    decreases e, 0
  {
    hide Scanned, Elems, Distinct;
    ghost var was := Elems(taken[..n]);
    ok, m := AddrExpr(e.l, taken, n);
    ghost var ok1, mid := ok, if ok then Elems(taken[..m]) else {};
    if ok { ok, m := AddrExpr(e.r, taken, m); }
    ScannedBoth(was, TakenE(e.l), ok1, mid, TakenE(e.r), ok, if ok then Elems(taken[..m]) else {});
  }

  method AddrArgs(args: seq<Expr>, taken: array<nat>, n: nat) returns (ok: bool, m: nat)
    requires Table(taken, n)
    modifies taken
    ensures ok ==> Table(taken, m)
    ensures Scanned(old(Elems(taken[..n])), TakenArgs(args), ok, if ok then Elems(taken[..m]) else {})
    decreases args, 0
  {
    hide Scanned, Elems, Distinct;
    ok, m := true, n;
    if args == [] {
      NothingScanned(taken, n);
    } else {
      ghost var was := Elems(taken[..n]);
      ok, m := AddrExpr(args[0], taken, n);
      ghost var ok1, mid := ok, if ok then Elems(taken[..m]) else {};
      if ok { ok, m := AddrArgs(args[1..], taken, m); }
      ScannedBoth(was, TakenE(args[0]), ok1, mid, TakenArgs(args[1..]), ok, if ok then Elems(taken[..m]) else {});
    }
  }

  method AddrOpt(e: Option<Expr>, taken: array<nat>, n: nat) returns (ok: bool, m: nat)
    requires Table(taken, n)
    modifies taken
    ensures ok ==> Table(taken, m)
    ensures Scanned(old(Elems(taken[..n])), TakenOpt(e), ok, if ok then Elems(taken[..m]) else {})
  {
    if e.None? {
      NothingScanned(taken, n);
      ok, m := true, n;
    } else {
      ok, m := AddrExpr(e.value, taken, n);
    }
  }

  method AddrStmt(s: Stmt, taken: array<nat>, n: nat) returns (ok: bool, m: nat)
    requires Table(taken, n)
    modifies taken
    ensures ok ==> Table(taken, m)
    ensures Scanned(old(Elems(taken[..n])), Taken(s), ok, if ok then Elems(taken[..m]) else {})
    decreases s, 1
  {
    hide Scanned, Elems, Distinct;
    match s
    case Block(b) => ok, m := AddrBlock(b, taken, n);
    case Do(e) => ok, m := AddrExpr(e, taken, n);
    case If(_, _, _) => ok, m := AddrIf(s, taken, n);
    case For(_, _, _, _) => ok, m := AddrFor(s, taken, n);
    case Defer(d) => ok, m := AddrStmt(d, taken, n);
    case Return(e) => ok, m := AddrExpr(e, taken, n);
    case _ =>
      NothingScanned(taken, n);
      ok, m := true, n;
  }

  method AddrBlock(b: seq<Stmt>, taken: array<nat>, n: nat) returns (ok: bool, m: nat)
    requires Table(taken, n)
    modifies taken
    ensures ok ==> Table(taken, m)
    ensures Scanned(old(Elems(taken[..n])), TakenAll(b), ok, if ok then Elems(taken[..m]) else {})
    decreases b, 0
  {
    hide Scanned, Elems, Distinct;
    ok, m := true, n;
    if b == [] {
      NothingScanned(taken, n);
    } else {
      ghost var was := Elems(taken[..n]);
      ok, m := AddrStmt(b[0], taken, n);
      ghost var ok1, mid := ok, if ok then Elems(taken[..m]) else {};
      if ok { ok, m := AddrBlock(b[1..], taken, m); }
      ScannedBoth(was, Taken(b[0]), ok1, mid, TakenAll(b[1..]), ok, if ok then Elems(taken[..m]) else {});
    }
  }

  method AddrStmtOpt(s: Option<Stmt>, taken: array<nat>, n: nat) returns (ok: bool, m: nat)
    requires Table(taken, n)
    modifies taken
    ensures ok ==> Table(taken, m)
    ensures Scanned(old(Elems(taken[..n])), if s.None? then {} else Taken(s.value), ok, if ok then Elems(taken[..m])
        else {})
    decreases s, 2
  {
    if s.None? {
      NothingScanned(taken, n);
      ok, m := true, n;
    } else {
      ok, m := AddrStmt(s.value, taken, n);
    }
  }

  method AddrIf(s: Stmt, taken: array<nat>, n: nat) returns (ok: bool, m: nat)
    requires s.If? && Table(taken, n)
    modifies taken
    ensures ok ==> Table(taken, m)
    ensures Scanned(old(Elems(taken[..n])), Taken(s), ok, if ok then Elems(taken[..m]) else {})
    decreases s, 0
  {
    hide Scanned, Elems, Distinct;
    ghost var was := Elems(taken[..n]);
    ok, m := AddrExpr(s.c, taken, n);
    ghost var ok1, t1 := ok, if ok then Elems(taken[..m]) else {};
    if ok { ok, m := AddrStmt(s.t, taken, m); }
    ghost var ok2, t2 := ok, if ok then Elems(taken[..m]) else {};
    ScannedBoth(was, TakenE(s.c), ok1, t1, Taken(s.t), ok2, t2);
    if ok { ok, m := AddrStmtOpt(s.f, taken, m); }
    ScannedBoth(was, TakenE(s.c) + Taken(s.t), ok2, t2, if s.f.None? then {} else Taken(s.f.value), ok, if ok
        then Elems(taken[..m]) else {});
  }

  method AddrFor(s: Stmt, taken: array<nat>, n: nat) returns (ok: bool, m: nat)
    requires s.For? && Table(taken, n)
    modifies taken
    ensures ok ==> Table(taken, m)
    ensures Scanned(old(Elems(taken[..n])), Taken(s), ok, if ok then Elems(taken[..m]) else {})
    decreases s, 0
  {
    hide Scanned, Elems, Distinct;
    ghost var was := Elems(taken[..n]);
    ghost var a, b, c, d := TakenOpt(s.cond), if s.init.None? then {} else Taken(s.init.value), TakenOpt(s.step),
        Taken(s.body);
    ok, m := AddrOpt(s.cond, taken, n);
    ghost var ok1, t1 := ok, if ok then Elems(taken[..m]) else {};
    if ok { ok, m := AddrStmtOpt(s.init, taken, m); }
    ghost var ok2, t2 := ok, if ok then Elems(taken[..m]) else {};
    ScannedBoth(was, a, ok1, t1, b, ok2, t2);
    if ok { ok, m := AddrOpt(s.step, taken, m); }
    ghost var ok3, t3 := ok, if ok then Elems(taken[..m]) else {};
    ScannedBoth(was, a + b, ok2, t2, c, ok3, t3);
    if ok { ok, m := AddrStmt(s.body, taken, m); }
    ScannedBoth(was, a + b + c, ok3, t3, d, ok, if ok then Elems(taken[..m]) else {});
  }

  // ----- ranges -----

  method NnFind(slots: array<Range>, n: nat, v: nat) returns (ub: int)
    requires n <= slots.Length
    ensures ub == Find(slots[..n], v)
  {
    var i := 0;
    while i < n
      invariant 0 <= i <= n && Find(slots[..n], v) == Find(slots[i..n], v)
    {
      assert slots[i..n][0] == slots[i] && slots[i..n][1..] == slots[i + 1..n];
      if slots[i].v == v { return slots[i].ub; }
      i := i + 1;
    }
    ub := -1;
  }

  method NnUb(e: Expr, slots: array<Range>, n: nat) returns (ub: int)
    requires n <= slots.Length
    ensures ub == Ub(e, slots[..n])
    decreases e
  {
    match e
    case Num(v) => ub := if v < 0 then -1 else v;
    case Var(x) => ub := NnFind(slots, n, x);
    case Bin(Add, l, r) =>
      var a := NnUb(l, slots, n);
      if a < 0 { return -1; }
      var b := NnUb(r, slots, n);
      if b < 0 || a > NN_MAX - b { return -1; }
      ub := a + b;
    case _ => ub := -1;
  }

  method EntryBound(st: Option<Stmt>, iv: nat, slots: array<Range>, n: nat) returns (ub: int)
    requires n <= slots.Length
    ensures ub == EntryUb(st, iv, slots[..n])
  {
    ub := -1;
    if st.Some? && st.value.Do? {
      var a := st.value.e;
      if a.Zero? {
        if a.x == iv { ub := 0; }
      } else if a.Assign? && (a.l == Var(iv) || a.l == Zero(iv)) {
        ub := NnUb(a.r, slots, n);
      }
    }
  }

  method StepBound(st: Option<Expr>, iv: nat, slots: array<Range>, n: nat) returns (ub: int, sv: Option<nat>)
    requires n <= slots.Length
    ensures ub == StepUb(st, iv, slots[..n]) && sv == StepVar(st, iv)
  {
    ub, sv := -1, None;
    var e := StepOf(st, iv);
    if e.Some? {
      if e.value.Var? { sv := Some(e.value.x); }
      ub := NnUb(e.value, slots, n);
    }
  }

  /** Walks the statements of a block, looking for the one increment. */
  method BodyIncrement(body: Stmt, iv: nat, slots: array<Range>, n: nat) returns (found: Option<nat>)
    requires n <= slots.Length
    ensures found == BodyInc(body, iv, slots[..n])
  {
    if !body.Block? { return None; }
    var b := body.b;
    found := None;
    var i := 0;
    while i < |b|
      invariant 0 <= i <= |b| && (found.Some? ==> found.value < |b| && IsWrite(b[found.value], iv))
      invariant IncFrom(b, 0, None, iv, slots[..n]) == IncFrom(b, i, found, iv, slots[..n])
    {
      if IsWrite(b[i], iv) {
        if found.Some? { return None; }
        var ub, _ := StepBound(Some(b[i].e), iv, slots, n);
        if ub < 0 { return None; }
        found := Some(i);
      } else if Writes(b[i], iv) {
        return None;
      }
      i := i + 1;
    }
  }

  // ----- the walk -----

  ghost predicate Setup(cx: Cx, taken: array<nat>, ntaken: nat, slots: array<Range>, n: nat)
    reads taken
  {
    ntaken <= taken.Length && cx.taken == Elems(taken[..ntaken]) && slots.Length == 64 && n <= 64
  }

  /** What to do with a loop. */
  method Decide(len: nat -> nat, globals: set<nat>, s: Stmt, prev: Option<Stmt>, taken: array<nat>, ntaken: nat,
      slots: array<Range>, n: nat, ghost cx: Cx) returns (p: Option<Plan>)
    requires s.For? && cx.globals == globals && Setup(cx, taken, ntaken, slots, n)
    ensures p == PlanFor(cx, s.init, s.cond, s.step, s.body, prev, slots[..n])
  {
    p := None;
    match s.cond
    case Some(Bin(Lt, Var(c), Num(k))) =>
      if k < 0 || c in globals { return None; }
      var t := AddrTaken(taken, ntaken, c);
      if t { return None; }
      var eub := EntryBound(if s.init.Some? then s.init else prev, c, slots, n);
      if eub < 0 { return None; }
      var inc, j: Option<nat> := s.step, None;
      if s.step.Some? {
        if Writes(s.body, c) { return None; }
      } else {
        j := BodyIncrement(s.body, c, slots, n);
        if j.None? { return None; }
        BodyIncSpec(s.body, c, slots[..n]);
        inc := Some(s.body.b[j.value].e);
      }
      var sub, sv := StepBound(inc, c, slots, n);
      if sub < 0 || sub > NN_MAX - k { return None; }
      if sv.Some? && (Writes(s.body, sv.value) || (s.step.Some? && WritesOpt(s.step, sv.value))) { return None; }
      p := Some(Plan(c, k, j));
    case _ =>
  }

  method ElideStmt(len: nat -> nat, globals: set<nat>, s: Stmt, prev: Option<Stmt>, taken: array<nat>, ntaken: nat,
      slots: array<Range>, n: nat, ghost cx: Cx) returns (r: Stmt)
    requires cx.len == len && cx.globals == globals && Setup(cx, taken, ntaken, slots, n)
    modifies slots
    ensures slots[..n] == old(slots[..n]) && r == Elide(cx, s, prev, slots[..n])
    decreases Size(s), 1
  {
    r := s;
    match s
    case Block(b) =>
      var c := ElideChain(len, globals, b, None, taken, ntaken, slots, n, cx);
      r := Block(c);
    case If(c, t, f) =>
      var t' := ElideStmt(len, globals, t, None, taken, ntaken, slots, n, cx);
      if f.None? {
        r := If(c, t', None);
      } else {
        var f' := ElideStmt(len, globals, f.value, None, taken, ntaken, slots, n, cx);
        r := If(c, t', Some(f'));
      }
    case Defer(d) =>
      var d' := ElideStmt(len, globals, d, None, taken, ntaken, slots, n, cx);
      r := Defer(d');
    case For(init, cond, step, body) =>
      var p := Decide(len, globals, s, prev, taken, ntaken, slots, n, cx);
      var body' := ElideLoop(len, globals, body, p, taken, ntaken, slots, n, cx);
      r := For(init, cond, step, body');
    case _ =>
  }

  method ElideChain(len: nat -> nat, globals: set<nat>, b: seq<Stmt>, first: Option<Stmt>, taken: array<nat>,
      ntaken: nat, slots: array<Range>, n: nat, ghost cx: Cx) returns (r: seq<Stmt>)
    requires cx.len == len && cx.globals == globals && Setup(cx, taken, ntaken, slots, n)
    modifies slots
    ensures slots[..n] == old(slots[..n]) && r == ElideAll(cx, b, first, slots[..n])
    decreases SizeAll(b), 0
  {
    r := [];
    if b != [] {
      var x := ElideStmt(len, globals, b[0], first, taken, ntaken, slots, n, cx);
      var rest := ElideChain(len, globals, b[1..], Some(b[0]), taken, ntaken, slots, n, cx);
      r := [x] + rest;
    }
  }

  /** The body of a loop. The new range goes behind the n in force; the caller never sees it. */
  method ElideLoop(len: nat -> nat, globals: set<nat>, body: Stmt, p: Option<Plan>, taken: array<nat>, ntaken: nat,
      slots: array<Range>, n: nat, ghost cx: Cx) returns (r: Stmt)
    requires cx.len == len && cx.globals == globals && Setup(cx, taken, ntaken, slots, n)
    modifies slots
    ensures slots[..n] == old(slots[..n]) && r == ElideBody(cx, body, p, slots[..n])
    decreases Size(body), 2
  {
    ghost var env := slots[..n];
    if p.None? {
      r := ElideStmt(len, globals, body, None, taken, ntaken, slots, n, cx);
      return;
    }
    var Plan(iv, K, inc) := p.value;
    var n2 := n;
    if n < 64 {
      slots[n] := Range(iv, K);
      n2 := n + 1;
    }
    assert slots[..n] == env;
    assert slots[..n2] == Extend(env, iv, K);
    if inc.None? {
      r := ElideStmt(len, globals, Mark(len, body, iv, K), None, taken, ntaken, slots, n2, cx);
      assert slots[..n] == slots[..n2][..n];
    } else if body.Block? && inc.value <= |body.b| {
      SizeSplit(body.b, inc.value);
      var pre := ElideChain(len, globals, MarkAll(len, body.b[..inc.value], iv, K), None, taken, ntaken, slots, n2, cx);
      assert slots[..n] == slots[..n2][..n];
      var rest := ElideChain(len, globals, body.b[inc.value..], None, taken, ntaken, slots, n, cx);
      r := Block(pre + rest);
    } else {
      r := body;
    }
  }

  /** The pass on a whole function; it gives up only on more than 64 address-taken variables. */
  method ElideBounds(len: nat -> nat, globals: set<nat>, body: Stmt,
      ghost world: (seq<I64>, State) -> Answer) returns (ok: bool, r: Stmt)
    ensures ok == (|Taken(body)| <= 64)
    ensures ok ==> r == Elide(Cx(len, globals, Taken(body), world), body, None, [])
    ensures ok ==> Dropped(Cx(len, globals, Taken(body), world), body, r)
  {
    var taken := new nat[64](_ => 0);
    var slots := new Range[64](_ => Range(0, 0));
    assert Elems(taken[..0]) == {};
    var ntaken;
    ok, ntaken := AddrStmt(body, taken, 0);
    r := body;
    assert {} + Taken(body) == Taken(body);
    if ok {
      r := ElideStmt(len, globals, body, None, taken, ntaken, slots, 0, Cx(len, globals, Taken(body), world));
      assert slots[..0] == [];
      DroppedAll(Cx(len, globals, Taken(body), world), body);
    }
  }
}
