/** How the parser looks for jumps out of deferred statements, what it lets through, and what the
    generator makes of that. */
module Defers {
  import opened Common
  import opened Source
  import opened Lowering

  // ----- the parser's flag -----

  datatype Check = Check(ok: bool, flag: bool)

  /** Whether the statement is accepted, and the flag behind it. A `defer` sets the flag and clears it at
      its end, whatever it was. */
  function Accepts(s: Stmt, flag: bool): Check {
    match s
    case Block(b) => AcceptsAll(b, flag)
    case Defer(d) => Check(Accepts(d, true).ok, false)
    case If(_, t, e) =>
      var r := Accepts(t, flag);
      if r.ok && e.Some? then Accepts(e.value, r.flag) else r
    case For(i, _, _, b) =>
      var r := if i.Some? then Accepts(i.value, flag) else Check(true, flag);
      if r.ok then Accepts(b, r.flag) else r
    case Expression(_) => Check(true, flag)
    case _ => Check(!flag, flag)
  }

  function AcceptsAll(b: seq<Stmt>, flag: bool): Check {
    if b == [] then Check(true, flag)
    else
      var r := Accepts(b[0], flag);
      if r.ok then AcceptsAll(b[1..], r.flag) else r
  }

  class Parser {
    var inDeferBody: bool

    constructor ()
      ensures !inDeferBody
    {
      inDeferBody := false;
    }

    /** The checks in the order in which the parser meets them; it stops at the first that fails. */
    method Statement(s: Stmt) returns (ok: bool)
      modifies this
      ensures ok == Accepts(s, old(inDeferBody)).ok && (ok ==> inDeferBody == Accepts(s, old(inDeferBody)).flag)
      decreases s, 1
    {
      match s
      case Block(b) => ok := Statements(b);
      case Defer(d) =>
        inDeferBody := true;
        ok := Statement(d);
        inDeferBody := false;
      case If(_, t, e) =>
        ok := Statement(t);
        if ok && e.Some? { ok := Statement(e.value); }
      case For(i, _, _, b) =>
        ok := true;
        if i.Some? { ok := Statement(i.value); }
        if ok { ok := Statement(b); }
      case Expression(_) => ok := true;
      case _ => ok := !inDeferBody;
    }

    method Statements(b: seq<Stmt>) returns (ok: bool)
      modifies this
      ensures ok == AcceptsAll(b, old(inDeferBody)).ok && (ok ==> inDeferBody == AcceptsAll(b, old(inDeferBody)).flag)
      decreases b, 0
    {
      ok := true;
      var i: nat := 0;
      while i < |b|
        invariant i <= |b| && AcceptsAll(b, old(inDeferBody)) == AcceptsAll(b[i..], inDeferBody)
      {
        assert b[i..][0] == b[i] && b[i..][1..] == b[i + 1..];
        ok := Statement(b[i]);
        if !ok { return; }
        i := i + 1;
      }
    }
  }

  // ----- what it should find -----

  /** A jump leaves s: a `return`, or a `break` or `continue` without a loop. What is inside a nested
      `defer` is not part of s. */
  predicate Escapes(s: Stmt, inLoop: bool) {
    match s
    case Block(b) => exists i :: 0 <= i < |b| && Escapes(b[i], inLoop)
    case If(_, t, e) => Escapes(t, inLoop) || (e.Some? && Escapes(e.value, inLoop))
    case For(i, _, _, b) => (i.Some? && Escapes(i.value, inLoop)) || Escapes(b, true)
    case Return(_) => true
    case Break => !inLoop
    case Continue => !inLoop
    case _ => false
  }

  /** No deferred statement in s is left by a jump. */
  predicate Contained(s: Stmt) {
    match s
    case Block(b) => forall i :: 0 <= i < |b| ==> Contained(b[i])
    case If(_, t, e) => Contained(t) && (e.Some? ==> Contained(e.value))
    case For(i, _, _, b) => (i.Some? ==> Contained(i.value)) && Contained(b)
    case Defer(d) => !Escapes(d, false) && Contained(d)
    case _ => true
  }

  /** A `defer` stands in s. */
  predicate Defers(s: Stmt) {
    match s
    case Block(b) => exists i :: 0 <= i < |b| && Defers(b[i])
    case If(_, t, e) => Defers(t) || (e.Some? && Defers(e.value))
    case For(i, _, _, b) => (i.Some? && Defers(i.value)) || Defers(b)
    case Defer(_) => true
    case _ => false
  }

  /** In the order of the text, a jump that leaves s stands behind a `defer`; `seen` says that one has
      come before. */
  predicate Late(s: Stmt, inLoop: bool, seen: bool) {
    match s
    case Block(b) => LateAll(b, inLoop, seen)
    case If(_, t, e) => Late(t, inLoop, seen) || (e.Some? && Late(e.value, inLoop, seen || Defers(t)))
    case For(i, _, _, b) =>
      (i.Some? && Late(i.value, inLoop, seen)) || Late(b, true, seen || (i.Some? && Defers(i.value)))
    case Return(_) => seen
    case Break => seen && !inLoop
    case Continue => seen && !inLoop
    case _ => false
  }

  predicate LateAll(b: seq<Stmt>, inLoop: bool, seen: bool) {
    b != [] && (Late(b[0], inLoop, seen) || LateAll(b[1..], inLoop, seen || Defers(b[0])))
  }

  /** In no deferred statement does such a jump stand behind a nested `defer`. */
  predicate NoneLate(s: Stmt) {
    match s
    case Block(b) => forall i :: 0 <= i < |b| ==> NoneLate(b[i])
    case If(_, t, e) => NoneLate(t) && (e.Some? ==> NoneLate(e.value))
    case For(i, _, _, b) => (i.Some? ==> NoneLate(i.value)) && NoneLate(b)
    case Defer(d) => !Late(d, false, false) && NoneLate(d)
    case _ => true
  }

  // ----- what it finds -----

  /** The flag is cleared by the first `defer` and never set again in the same statement. */
  lemma {:induction false} FlagBehind(s: Stmt, flag: bool)
    requires Accepts(s, flag).ok
    ensures Accepts(s, flag).flag == (flag && !Defers(s))
    decreases s, 1
  {
    match s
    case Block(b) => FlagBehindAll(b, flag);
    case If(_, t, e) =>
      FlagBehind(t, flag);
      if e.Some? { FlagBehind(e.value, Accepts(t, flag).flag); }
    case For(i, _, _, b) =>
      if i.Some? { FlagBehind(i.value, flag); }
      FlagBehind(b, if i.Some? then Accepts(i.value, flag).flag else flag);
    case _ =>
  }

  lemma {:induction false} FlagBehindAll(b: seq<Stmt>, flag: bool)
    requires AcceptsAll(b, flag).ok
    ensures AcceptsAll(b, flag).flag == (flag && !exists i :: 0 <= i < |b| && Defers(b[i]))
    decreases b, 0
  {
    if b != [] {
      FlagBehind(b[0], flag);
      FlagBehindAll(b[1..], Accepts(b[0], flag).flag);
      if j :| 0 <= j < |b| && Defers(b[j]) {
        if j > 0 { assert b[1..][j - 1] == b[j]; }
      } else {
        assert forall j :: 0 <= j < |b| - 1 ==> b[1..][j] == b[j + 1];
      }
    }
  }

  /** With the flag down, nothing more is rejected than with the flag up. */
  lemma {:induction false} FlagDown(s: Stmt, flag: bool)
    requires Accepts(s, flag).ok
    ensures Accepts(s, false).ok
    decreases s, 1
  {
    match s
    case Block(b) => FlagDownAll(b, flag);
    case If(_, t, e) =>
      FlagDown(t, flag);
      FlagBehind(t, false);
      if e.Some? { FlagDown(e.value, Accepts(t, flag).flag); }
    case For(i, _, _, b) =>
      if i.Some? { FlagDown(i.value, flag); FlagBehind(i.value, false); }
      FlagDown(b, if i.Some? then Accepts(i.value, flag).flag else flag);
    case _ =>
  }

  lemma {:induction false} FlagDownAll(b: seq<Stmt>, flag: bool)
    requires AcceptsAll(b, flag).ok
    ensures AcceptsAll(b, false).ok
    decreases b, 0
  {
    if b != [] {
      FlagDown(b[0], flag);
      FlagBehind(b[0], false);
      FlagDownAll(b[1..], Accepts(b[0], flag).flag);
    }
  }

  /** In a deferred statement that is accepted, the jumps that leave it are those behind a `defer`. */
  lemma {:induction false} EscapesLate(s: Stmt, inLoop: bool, seen: bool)
    requires Accepts(s, !seen).ok
    ensures Escapes(s, inLoop) <==> Late(s, inLoop, seen)
    decreases s, 1
  {
    match s
    case Block(b) => EscapesLateAll(b, inLoop, seen);
    case If(_, t, e) =>
      EscapesLate(t, inLoop, seen);
      FlagBehind(t, !seen);
      if e.Some? { EscapesLate(e.value, inLoop, seen || Defers(t)); }
    case For(i, _, _, b) =>
      if i.Some? { EscapesLate(i.value, inLoop, seen); FlagBehind(i.value, !seen); }
      EscapesLate(b, true, seen || (i.Some? && Defers(i.value)));
    case _ =>
  }

  lemma {:induction false} EscapesLateAll(b: seq<Stmt>, inLoop: bool, seen: bool)
    requires AcceptsAll(b, !seen).ok
    ensures (exists i :: 0 <= i < |b| && Escapes(b[i], inLoop)) <==> LateAll(b, inLoop, seen)
    decreases b, 0
  {
    if b != [] {
      EscapesLate(b[0], inLoop, seen);
      FlagBehind(b[0], !seen);
      EscapesLateAll(b[1..], inLoop, seen || Defers(b[0]));
      assert forall j :: 0 <= j < |b| - 1 ==> b[1..][j] == b[j + 1];
      if j :| 0 <= j < |b| && Escapes(b[j], inLoop) {
        if j > 0 { assert b[1..][j - 1] == b[j]; }
      }
      if k :| 0 <= k < |b| - 1 && Escapes(b[1..][k], inLoop) { assert Escapes(b[k + 1], inLoop); }
    }
  }

  /** What is accepted is as it should be exactly when no jump out of a deferred statement stands behind
      a `defer` nested in it. */
  lemma {:induction false} ContainedIff(s: Stmt)
    requires Accepts(s, false).ok
    ensures Contained(s) <==> NoneLate(s)
    decreases s, 1
  {
    match s
    case Block(b) => ContainedAll(b);
    case If(_, t, e) =>
      ContainedIff(t);
      FlagBehind(t, false);
      if e.Some? { ContainedIff(e.value); }
    case For(i, _, _, b) =>
      if i.Some? { ContainedIff(i.value); FlagBehind(i.value, false); }
      ContainedIff(b);
    case Defer(d) =>
      EscapesLate(d, false, false);
      FlagDown(d, true);
      ContainedIff(d);
    case _ =>
  }

  lemma {:induction false} ContainedAll(b: seq<Stmt>)
    requires AcceptsAll(b, false).ok
    ensures forall i :: 0 <= i < |b| ==> (Contained(b[i]) <==> NoneLate(b[i]))
    decreases b, 0
  {
    if b != [] {
      ContainedIff(b[0]);
      FlagBehind(b[0], false);
      ContainedAll(b[1..]);
      forall i | 0 <= i < |b| ensures Contained(b[i]) <==> NoneLate(b[i]) {
        if i > 0 { assert b[i] == b[1..][i - 1]; }
      }
    }
  }

  // ----- the statements that code is proved for -----

  /** Every `defer` stands directly in a block, and expressions make sense; nothing is said of jumps. */
  predicate Placed(s: Stmt, lens: seq<nat>)
    decreases Size(s)
  {
    match s
    case Block(b) => PlacedAll(b, lens)
    case Defer(_) => false
    case Expression(e) => OptOk(e, lens)
    case Return(e) => OptOk(e, lens)
    case If(c, t, e) => ExprOk(c, lens) && Placed(t, lens) && (e.Some? ==> Placed(e.value, lens))
    case For(i, c, st, b) =>
      (i.Some? ==> Placed(i.value, lens)) && OptOk(c, lens) && OptOk(st, lens) && Placed(b, lens)
    case _ => true
  }

  predicate PlacedAll(b: seq<Stmt>, lens: seq<nat>)
    decreases SizeAll(b)
  {
    b != [] ==>
      && (if b[0].Defer? then assert Size(b[0]) == 1 + Size(b[0].d); Placed(b[0].d, lens) else Placed(b[0], lens))
      && PlacedAll(b[1..], lens)
  }

  /** Left by a `return` of s itself, or else by a `break` or `continue` that is in none of its loops. */
  predicate Leaves(s: Stmt, ret: bool) {
    match s
    case Block(b) => exists i :: 0 <= i < |b| && Leaves(b[i], ret)
    case If(_, t, e) => Leaves(t, ret) || (e.Some? && Leaves(e.value, ret))
    case For(i, _, _, b) => (i.Some? && Leaves(i.value, ret)) || (ret && Leaves(b, ret))
    case Return(_) => ret
    case Break => !ret
    case Continue => !ret
    case _ => false
  }

  lemma {:induction false} EscapesParts(s: Stmt, inLoop: bool)
    ensures Escapes(s, inLoop) <==> Leaves(s, true) || (!inLoop && Leaves(s, false))
    decreases s
  {
    match s
    case Block(b) =>
      forall i | 0 <= i < |b|
        ensures Escapes(b[i], inLoop) <==> Leaves(b[i], true) || (!inLoop && Leaves(b[i], false))
      {
        EscapesParts(b[i], inLoop);
      }
    case If(_, t, e) =>
      EscapesParts(t, inLoop);
      if e.Some? { EscapesParts(e.value, inLoop); }
    case For(i, _, _, b) =>
      if i.Some? { EscapesParts(i.value, inLoop); }
      EscapesParts(b, true);
    case _ =>
  }

  /** Where deferred statements hold no jump, the others are inside loops exactly when none leaves. */
  lemma {:induction false} EscapesIff(s: Stmt, inLoop: bool)
    requires Contained(s)
    ensures Escapes(s, inLoop) <==> Leaves(s, true) || !JumpsInside(s, inLoop)
    decreases s
  {
    match s
    case Block(b) =>
      forall i | 0 <= i < |b| ensures Escapes(b[i], inLoop) <==> Leaves(b[i], true) || !JumpsInside(b[i], inLoop) {
        EscapesIff(b[i], inLoop);
      }
    case If(_, t, e) =>
      EscapesIff(t, inLoop);
      if e.Some? { EscapesIff(e.value, inLoop); }
    case For(i, _, _, b) =>
      if i.Some? { EscapesIff(i.value, inLoop); }
      EscapesIff(b, true);
    case Defer(d) => EscapesIff(d, false);
    case _ =>
  }

  lemma {:induction false} StmtOkIff(s: Stmt, lens: seq<nat>, inDefer: bool)
    ensures StmtOk(s, lens, inDefer) <==> Placed(s, lens) && Contained(s) && (inDefer ==> !Leaves(s, true))
    decreases Size(s), 1
  {
    match s
    case Block(b) => BlockOkIff(b, lens, inDefer);
    case If(_, t, e) =>
      StmtOkIff(t, lens, inDefer);
      if e.Some? { StmtOkIff(e.value, lens, inDefer); }
    case For(i, _, _, b) =>
      if i.Some? { StmtOkIff(i.value, lens, inDefer); }
      StmtOkIff(b, lens, inDefer);
    case _ =>
  }

  lemma {:induction false} BlockOkIff(b: seq<Stmt>, lens: seq<nat>, inDefer: bool)
    ensures BlockOk(b, lens, inDefer) <==>
            && PlacedAll(b, lens) && (forall i :: 0 <= i < |b| ==> Contained(b[i]))
            && (inDefer ==> forall i :: 0 <= i < |b| ==> !Leaves(b[i], true))
    decreases SizeAll(b), 0
  {
    if b != [] {
      if b[0].Defer? {
        assert Size(b[0]) == 1 + Size(b[0].d);
        StmtOkIff(b[0].d, lens, true);
        if Contained(b[0].d) { EscapesIff(b[0].d, false); }
      } else {
        StmtOkIff(b[0], lens, inDefer);
      }
      BlockOkIff(b[1..], lens, inDefer);
      assert forall j :: 0 <= j < |b| - 1 ==> b[1..][j] == b[j + 1];
      assert forall j :: 0 < j < |b| ==> b[j] == b[1..][j - 1];
    }
  }

  /** So of the programs that the parser accepts, code is proved for exactly those in which no jump out of
      a deferred statement stands behind a nested `defer`. */
  lemma AcceptedIff(s: Stmt, lens: seq<nat>)
    requires Accepts(s, false).ok && Placed(s, lens)
    ensures StmtOk(s, lens, false) <==> NoneLate(s)
  {
    StmtOkIff(s, lens, false);
    ContainedIff(s);
  }

  // ----- what else is accepted -----

  /** `{ defer s; return; }` */
  function Returning(s: Stmt): Stmt { Block([Defer(s), Return(None)]) }

  /** `{ defer { defer s; return; } }` is accepted. */
  lemma NestedReturn(s: Stmt, lens: seq<nat>)
    requires Accepts(s, true).ok
    ensures var p := Block([Defer(Returning(s))]); Accepts(p, false).ok && !NoneLate(p) && !StmtOk(p, lens, false)
  {
    var p, d := Block([Defer(Returning(s))]), Returning(s);
    var b := d.body;
    assert b[1..] == [Return(None)] && b[1..][1..] == [];
    assert Accepts(b[0], true) == Check(true, false);
    assert AcceptsAll(b[1..], false) == Check(true, false);
    assert AcceptsAll(b, true) == Check(true, false);
    assert p.body[1..] == [] && Accepts(p.body[0], false) == Check(true, false);
    assert AcceptsAll(p.body, false) == Check(true, false);
    assert Leaves(b[1], true) && Leaves(d, true);
    assert !Deferrable(d, lens) by { StmtOkIff(d, lens, true); }
    assert !BlockOk(p.body, lens, false);
    assert Defers(b[0]) && Late(b[1], false, true) && LateAll(b[1..], false, true) && Late(d, false, false);
    assert !NoneLate(p.body[0]);
  }

  /** `{ defer { defer s; while (c) { break; } } }` is accepted too, and is fine. */
  lemma NestedLoop(s: Stmt, c: Expr, lens: seq<nat>)
    requires Accepts(s, true).ok && Deferrable(s, lens) && ExprOk(c, lens)
    ensures var p := Block([Defer(Block([Defer(s), For(None, Some(c), None, Block([Break]))]))]);
      Accepts(p, false).ok && StmtOk(p, lens, false)
  {
    var loop := For(None, Some(c), None, Block([Break]));
    var b := [Defer(s), loop];
    var p := Block([Defer(Block(b))]);
    assert [Break][1..] == [] && b[1..] == [loop] && [loop][1..] == [] && p.body[1..] == [];
    assert AcceptsAll([Break], false) == Check(true, false);
    assert Accepts(loop, false) == Check(true, false) && Accepts(b[0], true) == Check(true, false);
    assert AcceptsAll(b[1..], false) == Check(true, false);
    assert AcceptsAll(b, true) == Check(true, false) && Accepts(p.body[0], false) == Check(true, false);
    assert BlockOk([Break], lens, true) && StmtOk(loop, lens, true) && BlockOk(b[1..], lens, true);
    assert BlockOk(b, lens, true) && JumpsInside(Block([Break]), true) && JumpsInside(loop, false);
    assert JumpsInside(Block(b), false) && Deferrable(Block(b), lens);
    assert BlockOk(p.body, lens, false);
  }

  // ----- and what becomes of it -----

  /** The generator's walk, without the code: the open scopes behind s, or None if it rejects a jump outside
      of loops or if n nested calls are not enough. `base` scopes lie outside the innermost loop. */
  function Walk(open: seq<seq<Stmt>>, base: Option<nat>, s: Stmt, n: nat): Option<seq<seq<Stmt>>>
    decreases n, 2, 0
  {
    if n == 0 then None
    else
      match s
      case Block(b) => (
        match WalkAll([[]] + open, base, b, n - 1)
        case None => None
        case Some(inner) =>
          if inner != [] && Runs(inner, base, inner[0], n - 1) then Some(inner[1..]) else None)
      case Defer(d) => Some(if open == [] then open else [[d] + open[0]] + open[1..])
      case Expression(_) => Some(open)
      case Return(_) => if Unwinds(open, base, open, n - 1) then Some(open) else None
      case If(_, t, e) => (
        match Walk(open, base, t, n - 1)
        case None => None
        case Some(open1) => if e.None? then Some(open1) else Walk(open1, base, e.value, n - 1))
      case For(i, _, _, b) => (
        match if i.None? then Some(open) else Walk(open, base, i.value, n - 1)
        case None => None
        case Some(open1) => Walk(open1, Some(|open1|), b, n - 1))
      case _ => if base.Some? && Unwinds(open, base, InLoop(open, base), n - 1) then Some(open) else None
  }

  /** The scopes inside the innermost loop. */
  function InLoop(open: seq<seq<Stmt>>, base: Option<nat>): seq<seq<Stmt>> {
    if base.Some? && base.value <= |open| then open[..|open| - base.value] else []
  }

  function WalkAll(open: seq<seq<Stmt>>, base: Option<nat>, b: seq<Stmt>, n: nat): Option<seq<seq<Stmt>>>
    decreases n, 3, |b|
  {
    if b == [] then Some(open)
    else
      match Walk(open, base, b[0], n)
      case None => None
      case Some(open1) => WalkAll(open1, base, b[1..], n)
  }

  /** The deferred statements l come to an end. */
  predicate Runs(open: seq<seq<Stmt>>, base: Option<nat>, l: seq<Stmt>, n: nat)
    decreases n, 3, |l|
  {
    l != [] ==> Walk(open, base, l[0], n).Some? && Runs(open, base, l[1..], n)
  }

  predicate Unwinds(open: seq<seq<Stmt>>, base: Option<nat>, scopes: seq<seq<Stmt>>, n: nat)
    decreases n, 4, |scopes|
  {
    scopes != [] ==> Runs(open, base, scopes[0], n) && Unwinds(open, base, scopes[1..], n)
  }

  lemma {:induction false} UnwindsAll(open: seq<seq<Stmt>>, base: Option<nat>, scopes: seq<seq<Stmt>>, n: nat,
      i: nat, d: Stmt)
    requires Unwinds(open, base, scopes, n) && i < |scopes| && d in scopes[i]
    ensures Walk(open, base, d, n).Some?
    decreases i
  {
    if i == 0 { RunsAll(open, base, scopes[0], n, d); } else { UnwindsAll(open, base, scopes[1..], n, i - 1, d); }
  }

  lemma {:induction false} RunsAll(open: seq<seq<Stmt>>, base: Option<nat>, l: seq<Stmt>, n: nat, d: Stmt)
    requires Runs(open, base, l, n) && d in l
    ensures Walk(open, base, d, n).Some?
    decreases l
  {
    if d != l[0] { RunsAll(open, base, l[1..], n, d); }
  }

  /** The same scopes, the innermost with more in it. */
  ghost predicate Grown(a: seq<seq<Stmt>>, b: seq<seq<Stmt>>) {
    |a| == |b| && (a != [] ==> a[1..] == b[1..] && forall d :: d in a[0] ==> d in b[0])
  }

  lemma {:induction false} WalkGrows(open: seq<seq<Stmt>>, base: Option<nat>, s: Stmt, n: nat)
    requires Walk(open, base, s, n).Some?
    ensures Grown(open, Walk(open, base, s, n).value)
    decreases n, 0
  {
    match s
    case Block(b) =>
      WalkAllGrows([[]] + open, base, b, n - 1);
      assert ([[]] + open)[1..] == open;
    case If(_, t, e) =>
      WalkGrows(open, base, t, n - 1);
      if e.Some? { WalkGrows(Walk(open, base, t, n - 1).value, base, e.value, n - 1); }
    case For(i, _, _, b) =>
      if i.Some? { WalkGrows(open, base, i.value, n - 1); }
      var open1 := if i.None? then open else Walk(open, base, i.value, n - 1).value;
      WalkGrows(open1, Some(|open1|), b, n - 1);
    case _ =>
  }

  lemma {:induction false} WalkAllGrows(open: seq<seq<Stmt>>, base: Option<nat>, b: seq<Stmt>, n: nat)
    requires WalkAll(open, base, b, n).Some?
    ensures Grown(open, WalkAll(open, base, b, n).value)
    decreases n, |b| + 1
  {
    if b != [] {
      WalkGrows(open, base, b[0], n);
      WalkAllGrows(Walk(open, base, b[0], n).value, base, b[1..], n);
    }
  }

  /** d is deferred in scope i and is left by a `return`, or by a jump for the loop around the scope. */
  ghost predicate Caught(open: seq<seq<Stmt>>, base: Option<nat>, i: nat, d: Stmt, ret: bool) {
    && i < |open| && d in open[i] && Leaves(d, ret)
    && (!ret && base.Some? ==> i + base.value < |open|)
  }

  lemma CaughtStill(a: seq<seq<Stmt>>, b: seq<seq<Stmt>>, base: Option<nat>, i: nat, d: Stmt, ret: bool)
    requires Caught(a, base, i, d, ret) && Grown(a, b)
    ensures Caught(b, base, i, d, ret)
  {
    if i > 0 { assert a[i] == a[1..][i - 1] && b[i] == b[1..][i - 1]; }
  }

  /** A jump out of another statement, or the same one, meets it again. */
  lemma {:induction false} Endless(open: seq<seq<Stmt>>, base: Option<nat>, s: Stmt, n: nat, i: nat, d: Stmt, ret: bool)
    requires Caught(open, base, i, d, ret) && Leaves(s, ret)
    ensures Walk(open, base, s, n) == None
    decreases n, 0
  {
    if Walk(open, base, s, n).None? {
    } else if s.Return? || s.Break? || s.Continue? {
      UnwindsAll(open, base, if s.Return? then open else InLoop(open, base), n - 1, i, d);
      Endless(open, base, d, n - 1, i, d, ret);
    } else {
      match s
      case Block(b) => EndlessAll([[]] + open, base, b, n - 1, i + 1, d, ret);
      case If(_, t, e) =>
        if Leaves(t, ret) {
          Endless(open, base, t, n - 1, i, d, ret);
        } else {
          WalkGrows(open, base, t, n - 1);
          var open1 := Walk(open, base, t, n - 1).value;
          CaughtStill(open, open1, base, i, d, ret);
          Endless(open1, base, e.value, n - 1, i, d, ret);
        }
      case For(init, _, _, b) =>
        if init.Some? && Leaves(init.value, ret) {
          Endless(open, base, init.value, n - 1, i, d, ret);
        } else {
          if init.Some? { WalkGrows(open, base, init.value, n - 1); }
          var open1 := if init.None? then open else Walk(open, base, init.value, n - 1).value;
          CaughtStill(open, open1, base, i, d, ret);
          Endless(open1, Some(|open1|), b, n - 1, i, d, ret);
        }
      case _ => assert false;
    }
  }

  lemma {:induction false} EndlessAll(open: seq<seq<Stmt>>, base: Option<nat>, b: seq<Stmt>, n: nat, i: nat, d: Stmt,
      ret: bool)
    requires Caught(open, base, i, d, ret) && exists k :: 0 <= k < |b| && Leaves(b[k], ret)
    ensures WalkAll(open, base, b, n) == None
    decreases n, |b| + 1
  {
    if Leaves(b[0], ret) {
      Endless(open, base, b[0], n, i, d, ret);
    } else if Walk(open, base, b[0], n).Some? {
      WalkGrows(open, base, b[0], n);
      var open1 := Walk(open, base, b[0], n).value;
      CaughtStill(open, open1, base, i, d, ret);
      var k :| 0 <= k < |b| && Leaves(b[k], ret);
      assert b[1..][k - 1] == b[k];
      EndlessAll(open1, base, b[1..], n, i, d, ret);
    }
  }

  /** A deferred statement that cannot be run: it is left by a jump, or holds one that is. */
  ghost predicate Bad(d: Stmt, lens: seq<nat>) { Placed(d, lens) && (Escapes(d, false) || !Contained(d)) }

  /** No code comes of a statement in which a jump leaves a deferred one. */
  lemma {:induction false} NeverDone(open: seq<seq<Stmt>>, base: Option<nat>, s: Stmt, lens: seq<nat>, n: nat)
    requires Placed(s, lens) && !Contained(s) && (base.Some? ==> base.value <= |open|)
    ensures Walk(open, base, s, n) == None
    decreases n, 0
  {
    if Walk(open, base, s, n).Some? {
      match s
      case Block(b) =>
        WalkAllGrows([[]] + open, base, b, n - 1);
        var inner := WalkAll([[]] + open, base, b, n - 1).value;
        var d := BadRegistered([[]] + open, base, b, lens, n - 1);
        RunsAll(inner, base, inner[0], n - 1, d);
        if Escapes(d, false) {
          EscapesParts(d, false);
          Endless(inner, base, d, n - 1, 0, d, Leaves(d, true));
        } else {
          NeverDone(inner, base, d, lens, n - 1);
        }
      case If(_, t, e) =>
        if !Contained(t) {
          NeverDone(open, base, t, lens, n - 1);
        } else {
          WalkGrows(open, base, t, n - 1);
          NeverDone(Walk(open, base, t, n - 1).value, base, e.value, lens, n - 1);
        }
      case For(i, _, _, b) =>
        if i.Some? && !Contained(i.value) {
          NeverDone(open, base, i.value, lens, n - 1);
        } else {
          var open1 := if i.None? then open else Walk(open, base, i.value, n - 1).value;
          NeverDone(open1, Some(|open1|), b, lens, n - 1);
        }
    }
  }

  lemma {:induction false} BadRegistered(open: seq<seq<Stmt>>, base: Option<nat>, b: seq<Stmt>, lens: seq<nat>, n: nat)
      returns (d: Stmt)
    requires open != [] && (base.Some? ==> base.value <= |open|)
    requires PlacedAll(b, lens) && (exists k :: 0 <= k < |b| && !Contained(b[k])) && WalkAll(open, base, b, n).Some?
    ensures var inner := WalkAll(open, base, b, n).value;
      inner != [] && d in inner[0] && Bad(d, lens)
    decreases n, |b| + 1
  {
    var open1 := Walk(open, base, b[0], n).value;
    WalkGrows(open, base, b[0], n);
    WalkAllGrows(open1, base, b[1..], n);
    if Contained(b[0]) {
      var k :| 0 <= k < |b| && !Contained(b[k]);
      assert b[1..][k - 1] == b[k];
      d := BadRegistered(open1, base, b[1..], lens, n);
    } else if b[0].Defer? {
      d := b[0].d;
    } else {
      NeverDone(open, base, b[0], lens, n);
    }
  }

  // ----- when it is done -----

  /** A jump outside of loops is rejected. */
  lemma {:induction false} JumpRejected(open: seq<seq<Stmt>>, base: Option<nat>, s: Stmt, lens: seq<nat>, n: nat)
    requires Walk(open, base, s, n).Some? && StmtOk(s, lens, false)
    ensures JumpsInside(s, base.Some?)
    decreases n, 0
  {
    match s
    case Block(b) => JumpRejectedAll([[]] + open, base, b, lens, n - 1);
    case If(_, t, e) =>
      JumpRejected(open, base, t, lens, n - 1);
      if e.Some? { JumpRejected(Walk(open, base, t, n - 1).value, base, e.value, lens, n - 1); }
    case For(i, _, _, b) =>
      if i.Some? { JumpRejected(open, base, i.value, lens, n - 1); }
      var open1 := if i.None? then open else Walk(open, base, i.value, n - 1).value;
      JumpRejected(open1, Some(|open1|), b, lens, n - 1);
    case _ =>
  }

  lemma {:induction false} JumpRejectedAll(open: seq<seq<Stmt>>, base: Option<nat>, b: seq<Stmt>, lens: seq<nat>,
      n: nat)
    requires WalkAll(open, base, b, n).Some? && BlockOk(b, lens, false)
    ensures forall i :: 0 <= i < |b| ==> JumpsInside(b[i], base.Some?)
    decreases n, |b| + 1
  {
    if b != [] {
      if !b[0].Defer? { JumpRejected(open, base, b[0], lens, n); }
      JumpRejectedAll(Walk(open, base, b[0], n).value, base, b[1..], lens, n);
      assert forall i :: 0 < i < |b| ==> b[i] == b[1..][i - 1];
    }
  }

  /** What waits in the scopes. */
  function Owed(open: seq<seq<Stmt>>): nat { if open == [] then 0 else SizeAll(open[0]) + Owed(open[1..]) }

  lemma {:induction false} OwedPart(open: seq<seq<Stmt>>, n: nat)
    requires n <= |open|
    ensures Owed(open[..n]) <= Owed(open)
    decreases open
  {
    if n > 0 {
      assert open[..n][1..] == open[1..][..n - 1];
      OwedPart(open[1..], n - 1);
    }
  }

  /** The first j scopes, all that s can unwind: all there are if it may return, and those inside the loop if
      it may leave that. */
  ghost predicate Reaches(open: seq<seq<Stmt>>, base: Option<nat>, lens: seq<nat>, inDefer: bool, inLoop: bool,
      j: nat)
  {
    && j <= |open| && ScopesOk(open[..j], lens) && (!inDefer ==> j == |open|)
    && (inLoop ==> base.Some? && base.value <= |open| <= base.value + j)
  }

  /** A statement that is in order is done, and leaves the scopes as they are. */
  lemma {:induction false} Ends(open: seq<seq<Stmt>>, base: Option<nat>, s: Stmt, lens: seq<nat>, inDefer: bool,
      inLoop: bool, j: nat, n: nat)
    requires StmtOk(s, lens, inDefer) && JumpsInside(s, inLoop) && Reaches(open, base, lens, inDefer, inLoop, j)
    requires Owed(open[..j]) + Size(s) < n
    ensures Walk(open, base, s, n) == Some(open)
    decreases n, 0, 0
  {
    match s
    case Block(b) =>
      assert ([[]] + open)[..j + 1] == [[]] + open[..j] && ([[]] + open[..j])[1..] == open[..j];
      var inner := EndsAll([[]] + open, base, b, lens, inDefer, inLoop, j + 1, n - 1);
      RunsEnds(inner, base, inner[0], lens, n - 1);
    case If(_, t, e) =>
      Ends(open, base, t, lens, inDefer, inLoop, j, n - 1);
      if e.Some? { Ends(open, base, e.value, lens, inDefer, inLoop, j, n - 1); }
    case For(i, _, _, b) =>
      if i.Some? { Ends(open, base, i.value, lens, inDefer, inLoop, j, n - 1); }
      Ends(open, Some(|open|), b, lens, inDefer, true, j, n - 1);
    case Return(_) =>
      assert open[..j] == open;
      UnwindsEnds(open, base, open, lens, n - 1);
    case Expression(_) =>
    case Break => InLoopEnds(open, base, lens, j, n - 1);
    case Continue => InLoopEnds(open, base, lens, j, n - 1);
    case Defer(_) => assert false;
  }

  lemma {:induction false} InLoopEnds(open: seq<seq<Stmt>>, base: Option<nat>, lens: seq<nat>, j: nat, n: nat)
    requires Reaches(open, base, lens, true, true, j) && Owed(open[..j]) < n
    ensures Unwinds(open, base, InLoop(open, base), n)
    decreases n, 3, 0
  {
    var k := |open| - base.value;
    assert open[..j][..k] == open[..k];
    OwedPart(open[..j], k);
    UnwindsEnds(open, base, open[..k], lens, n);
  }

  lemma {:induction false} EndsAll(open: seq<seq<Stmt>>, base: Option<nat>, b: seq<Stmt>, lens: seq<nat>, inDefer: bool,
      inLoop: bool, j: nat, n: nat) returns (inner: seq<seq<Stmt>>)
    requires BlockOk(b, lens, inDefer) && (forall i :: 0 <= i < |b| ==> JumpsInside(b[i], inLoop))
    requires Reaches(open, base, lens, inDefer, inLoop, j) && j > 0 && Owed(open[..j]) + SizeAll(b) < n
    ensures WalkAll(open, base, b, n) == Some(inner) && inner != [] && inner[1..] == open[1..]
    ensures PendingOk(inner[0], lens) && SizeAll(inner[0]) <= Owed(open[..j]) + SizeAll(b)
    decreases n, 1, |b|
  {
    inner := open;
    assert open[..j][0] == open[0] && open[..j][1..] == open[1..][..j - 1];
    if b != [] {
      assert forall i :: 0 < i < |b| ==> b[i] == b[1..][i - 1];
      if b[0].Defer? {
        var d := b[0].d;
        var first := [d] + open[0];
        var open1 := [first] + open[1..];
        assert first[1..] == open[0] && PendingOk(first, lens);
        assert open1[..j] == [first] + open[..j][1..] && open1[..j][1..] == open[..j][1..];
        inner := EndsAll(open1, base, b[1..], lens, inDefer, inLoop, j, n);
      } else {
        Ends(open, base, b[0], lens, inDefer, inLoop, j, n);
        inner := EndsAll(open, base, b[1..], lens, inDefer, inLoop, j, n);
      }
    }
  }

  lemma {:induction false} RunsEnds(open: seq<seq<Stmt>>, base: Option<nat>, l: seq<Stmt>, lens: seq<nat>, n: nat)
    requires PendingOk(l, lens) && SizeAll(l) < n
    ensures Runs(open, base, l, n)
    decreases n, 1, |l|
  {
    if l != [] {
      assert open[..0] == [];
      Ends(open, base, l[0], lens, true, false, 0, n);
      RunsEnds(open, base, l[1..], lens, n);
    }
  }

  lemma {:induction false} UnwindsEnds(open: seq<seq<Stmt>>, base: Option<nat>, scopes: seq<seq<Stmt>>, lens: seq<nat>,
      n: nat)
    requires ScopesOk(scopes, lens) && Owed(scopes) < n
    ensures Unwinds(open, base, scopes, n)
    decreases n, 2, |scopes|
  {
    if scopes != [] {
      RunsEnds(open, base, scopes[0], lens, n);
      UnwindsEnds(open, base, scopes[1..], lens, n);
    }
  }

  /** The generator gets through the body of a function that the parser accepts exactly when no jump out of a
      deferred statement stands behind a nested `defer`, and every jump is inside a loop. Otherwise it
      rejects a jump, or calls itself without end. */
  lemma DoneIff(p: Stmt, lens: seq<nat>)
    requires p.Block? && Accepts(p, false).ok && Placed(p, lens)
    ensures (exists n: nat :: Walk([], None, p, n).Some?) <==> NoneLate(p) && JumpsInside(p, false)
  {
    AcceptedIff(p, lens);
    if NoneLate(p) {
      if JumpsInside(p, false) {
        Ends([], None, p, lens, false, false, 0, Size(p) + 1);
      } else if n: nat :| Walk([], None, p, n).Some? {
        JumpRejected([], None, p, lens, n);
      }
    } else {
      ContainedIff(p);
      if n: nat :| Walk([], None, p, n).Some? { NeverDone([], None, p, lens, n); }
    }
  }

  /** On `{ defer { defer s; return; } }` it calls itself without end. */
  lemma NoCode(s: Stmt, lens: seq<nat>, n: nat)
    requires Accepts(s, true).ok && Placed(s, lens)
    ensures Walk([], None, Block([Defer(Returning(s))]), n) == None
  {
    var p, d := Block([Defer(Returning(s))]), Returning(s);
    NestedReturn(s, lens);
    var rest := [Return(None)];
    assert rest[1..] == [] && PlacedAll(rest, lens);
    assert d.body[1..] == rest && PlacedAll(d.body, lens);
    assert p.body[1..] == [] && PlacedAll(p.body, lens);
    DoneIff(p, lens);
  }
}
