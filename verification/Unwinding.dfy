/** Which defers a run still owes when a block is left, and in which order they run. */
module Unwinding {
  import opened Common
  import opened Source
  import opened Lowering

  /** Runs the defers of every open scope, innermost first; gs holds the fuel of each scope. */
  function RunScopes(o: World, open: seq<seq<Stmt>>, gs: seq<nat>, st: State, lens: seq<nat>): (r: Outcome)
    requires ScopesOk(open, lens) && |gs| == |open| && Shaped(st, lens)
    ensures r.Done? ==> Shaped(r.st, lens)
    decreases |open|
  {
    if open == [] then Done(Normal, st)
    else
      match RunPending(o, open[0], st, lens, gs[0])
      case Done(_, st1) => RunScopes(o, open[1..], gs[1..], st1, lens)
      case other => other
  }

  predicate Leaves(r: Outcome) { r.Done? ==> r.x == Normal || r.x.Returned? }

  /** A statement whose jumps are inside loops ends normally or returns. */
  lemma {:induction false} NoStrayJump(o: World, s: Stmt, st: State, lens: seq<nat>, inDefer: bool, fuel: nat)
    requires StmtOk(s, lens, inDefer) && Shaped(st, lens) && JumpsInside(s, false)
    ensures Leaves(Exec(o, s, st, lens, inDefer, fuel))
    decreases Size(s), fuel, 1
  {
    match s
    case Block(b) =>
      NoStrayInBlock(o, b, st, lens, inDefer, fuel);
      var r := ExecBlock(o, b, st, lens, inDefer, fuel);
      if r.out.Done? { PendingEndsNormally(o, r.pending, r.out.st, lens, fuel); }
    case If(c, t, e) =>
      var r := Eval(o, c, st, lens);
      if r.Val? {
        NoStrayJump(o, t, r.st, lens, inDefer, fuel);
        if e.Some? { NoStrayJump(o, e.value, r.st, lens, inDefer, fuel); }
      }
    case For(i, c, step, b) =>
      if i.None? {
        LoopLeaves(o, c, step, b, st, lens, inDefer, fuel);
      } else {
        NoStrayJump(o, i.value, st, lens, inDefer, fuel);
        var r := Exec(o, i.value, st, lens, inDefer, fuel);
        if r.Done? { LoopLeaves(o, c, step, b, r.st, lens, inDefer, fuel); }
      }
    case _ =>
  }

  lemma {:induction false} NoStrayInBlock(o: World, b: seq<Stmt>, st: State, lens: seq<nat>, inDefer: bool, fuel: nat)
    requires BlockOk(b, lens, inDefer) && Shaped(st, lens) && forall i :: 0 <= i < |b| ==> JumpsInside(b[i], false)
    ensures Leaves(ExecBlock(o, b, st, lens, inDefer, fuel).out)
    decreases SizeAll(b), fuel, 0
  {
    if b != [] {
      if b[0].Defer? {
        NoStrayInBlock(o, b[1..], st, lens, inDefer, fuel);
      } else {
        NoStrayJump(o, b[0], st, lens, inDefer, fuel);
        var r := Exec(o, b[0], st, lens, inDefer, fuel);
        if r.Done? { NoStrayInBlock(o, b[1..], r.st, lens, inDefer, fuel); }
      }
    }
  }

  lemma {:induction false} LoopLeaves(o: World, test: Option<Expr>, step: Option<Expr>, body: Stmt, st: State,
      lens: seq<nat>, inDefer: bool, fuel: nat)
    requires OptOk(test, lens) && OptOk(step, lens) && StmtOk(body, lens, inDefer) && Shaped(st, lens)
    ensures Leaves(Loop(o, test, step, body, st, lens, inDefer, fuel))
    decreases fuel
  {
    hide Eval, ExprOk, Shaped;
    if fuel > 0 {
      var t := EvalOpt(o, test, 1, st, lens);
      if t.Val? {
        var r := Exec(o, body, t.st, lens, inDefer, fuel - 1);
        if r.Done? {
          var n := EvalOpt(o, step, 0, r.st, lens);
          if n.Val? { LoopLeaves(o, test, step, body, n.st, lens, inDefer, fuel - 1); }
        }
      }
    }
  }

  predicate Stays(r: Outcome) { r.Done? ==> !r.x.Returned? }

  /** A deferred statement does not return. */
  lemma {:induction false} NoReturn(o: World, s: Stmt, st: State, lens: seq<nat>, fuel: nat)
    requires StmtOk(s, lens, true) && Shaped(st, lens)
    ensures Stays(Exec(o, s, st, lens, true, fuel))
    decreases Size(s), fuel, 1
  {
    match s
    case Block(b) =>
      NoReturnInBlock(o, b, st, lens, fuel);
      var r := ExecBlock(o, b, st, lens, true, fuel);
      if r.out.Done? { PendingEndsNormally(o, r.pending, r.out.st, lens, fuel); }
    case If(c, t, e) =>
      var r := Eval(o, c, st, lens);
      if r.Val? {
        NoReturn(o, t, r.st, lens, fuel);
        if e.Some? { NoReturn(o, e.value, r.st, lens, fuel); }
      }
    case For(i, c, step, b) =>
      if i.None? {
        NoReturnInLoop(o, c, step, b, st, lens, fuel);
      } else {
        NoReturn(o, i.value, st, lens, fuel);
        var r := Exec(o, i.value, st, lens, true, fuel);
        if r.Done? { NoReturnInLoop(o, c, step, b, r.st, lens, fuel); }
      }
    case _ =>
  }

  lemma {:induction false} NoReturnInBlock(o: World, b: seq<Stmt>, st: State, lens: seq<nat>, fuel: nat)
    requires BlockOk(b, lens, true) && Shaped(st, lens)
    ensures Stays(ExecBlock(o, b, st, lens, true, fuel).out)
    decreases SizeAll(b), fuel, 0
  {
    if b != [] {
      if b[0].Defer? {
        NoReturnInBlock(o, b[1..], st, lens, fuel);
      } else {
        NoReturn(o, b[0], st, lens, fuel);
        var r := Exec(o, b[0], st, lens, true, fuel);
        if r.Done? { NoReturnInBlock(o, b[1..], r.st, lens, fuel); }
      }
    }
  }

  lemma {:induction false} NoReturnInLoop(o: World, test: Option<Expr>, step: Option<Expr>, body: Stmt, st: State,
      lens: seq<nat>, fuel: nat)
    requires OptOk(test, lens) && OptOk(step, lens) && StmtOk(body, lens, true) && Shaped(st, lens)
    ensures Stays(Loop(o, test, step, body, st, lens, true, fuel))
    decreases Size(body) + 1, fuel, 0
  {
    hide Eval, ExprOk, Shaped;
    if fuel > 0 {
      var t := EvalOpt(o, test, 1, st, lens);
      if t.Val? {
        NoReturn(o, body, t.st, lens, fuel - 1);
        var r := Exec(o, body, t.st, lens, true, fuel - 1);
        if r.Done? {
          var n := EvalOpt(o, step, 0, r.st, lens);
          if n.Val? { NoReturnInLoop(o, test, step, body, n.st, lens, fuel - 1); }
        }
      }
    }
  }

  /** So a deferred statement is never left by a jump. */
  lemma DeferEndsNormally(o: World, d: Stmt, st: State, lens: seq<nat>, fuel: nat)
    requires Deferrable(d, lens) && Shaped(st, lens)
    ensures var r := Exec(o, d, st, lens, true, fuel); r.Done? ==> r.x == Normal
    decreases Size(d) + 1, fuel, 0
  {
    NoStrayJump(o, d, st, lens, true, fuel);
    NoReturn(o, d, st, lens, fuel);
  }

  lemma {:induction false} PendingEndsNormally(o: World, l: seq<Stmt>, st: State, lens: seq<nat>, fuel: nat)
    requires PendingOk(l, lens) && Shaped(st, lens)
    ensures var r := RunPending(o, l, st, lens, fuel); r.Done? ==> r.x == Normal
    decreases SizeAll(l), fuel, 2
  {
    if l != [] {
      DeferEndsNormally(o, l[0], st, lens, fuel);
      var r := Exec(o, l[0], st, lens, true, fuel);
      if r.Done? { PendingEndsNormally(o, l[1..], r.st, lens, fuel); }
    }
  }

  /** A block that runs to its end owes every defer written in it, the last one first; one that is
      left early owes those it had reached. */
  lemma {:induction false} PendingAtEnd(o: World, b: seq<Stmt>, st: State, lens: seq<nat>, inDefer: bool, fuel: nat)
    requires BlockOk(b, lens, inDefer) && Shaped(st, lens)
    ensures var r := ExecBlock(o, b, st, lens, inDefer, fuel);
      (r.out.Done? && r.out.x == Normal ==> r.pending == DefersOf(b)) &&
      exists k :: 0 <= k <= |b| && r.pending == DefersOf(b[..k])
    decreases b
  {
    if b != [] {
      var rest := b[1..];
      if b[0].Defer? {
        PendingAtEnd(o, rest, st, lens, inDefer, fuel);
        var k :| 0 <= k <= |rest| && ExecBlock(o, rest, st, lens, inDefer, fuel).pending == DefersOf(rest[..k]);
        assert b[..k + 1][1..] == rest[..k];
        assert ExecBlock(o, b, st, lens, inDefer, fuel).pending == DefersOf(b[..k + 1]);
      } else {
        var r := Exec(o, b[0], st, lens, inDefer, fuel);
        if r.Done? && r.x == Normal {
          PendingAtEnd(o, rest, r.st, lens, inDefer, fuel);
          var k :| 0 <= k <= |rest| && ExecBlock(o, rest, r.st, lens, inDefer, fuel).pending == DefersOf(rest[..k]);
          assert b[..k + 1][1..] == rest[..k];
          assert ExecBlock(o, b, st, lens, inDefer, fuel).pending == DefersOf(b[..k + 1]);
        } else {
          assert ExecBlock(o, b, st, lens, inDefer, fuel).pending == DefersOf(b[..0]);
        }
      }
    } else {
      assert b[..0] == [];
    }
  }
}
