/** The code generator itself: one pass over the tree that appends to a code buffer, keeps the stack
    depth, and patches jumps once their targets are known. */
module Emission {
  import opened Common
  import opened Source
  import opened Machine
  import opened Lowering
  import opened Simulation
  import opened Registers
  import opened Functions
  import opened Unwinding

  // ----- what appending a piece of code means -----

  /** A loop being emitted: its unpatched jumps, and the number of scopes open around it. */
  datatype LoopRec = LoopRec(brk: seq<nat>, cont: seq<nat>, depth: nat)

  /** The buffer and the lists of jumps to patch. */
  datatype Out = Out(code: seq<Instr>, bounds: seq<nat>, loops: seq<LoopRec>)

  /** A jump with an unknown target is emitted with displacement 0. */
  function RawSym(s: Sym): Instr {
    match s
    case Plain(i) => i
    case SymJmp(l) => Jmp(if l.Rel? then l.d else 0)
    case SymJcc(cc, l) => Jcc(cc, if l.Rel? then l.d else 0)
  }

  function Raw(c: seq<Sym>): (r: seq<Instr>)
    ensures |r| == |c| && forall i :: 0 <= i < |c| ==> r[i] == RawSym(c[i])
  {
    seq(|c|, i requires 0 <= i < |c| => RawSym(c[i]))
  }

  /** The positions of the jumps with label l, for code starting at base. */
  function Sites(c: seq<Sym>, base: nat, l: Label): seq<nat> {
    if c == [] then []
    else
      var n := |c| - 1;
      Sites(c[..n], base, l) + (if LabelOf(c[n]) == l then [base + n] else [])
  }

  function Append(o: Out, c: seq<Sym>): (r: Out)
    ensures |r.code| == |o.code| + |c| && |r.loops| == |o.loops|
    ensures o.loops != [] ==> r.loops[0].depth == o.loops[0].depth
  {
    var at := |o.code|;
    Out(o.code + Raw(c), o.bounds + Sites(c, at, ToPanic),
        if o.loops == [] then []
        else
          [LoopRec(o.loops[0].brk + Sites(c, at, ToBreak), o.loops[0].cont + Sites(c, at, ToContinue),
              o.loops[0].depth)] + o.loops[1..])
  }

  lemma {:induction false} SitesJoin(a: seq<Sym>, b: seq<Sym>, base: nat, l: Label)
    ensures Sites(a + b, base, l) == Sites(a, base, l) + Sites(b, base + |a|, l)
    decreases |b|
  {
    if b == [] {
      assert a + b == a;
    } else {
      var n := |b| - 1;
      assert (a + b)[..|a + b| - 1] == a + b[..n];
      SitesJoin(a, b[..n], base, l);
    }
  }

  lemma AppendNothing(o: Out)
    ensures Append(o, []) == o
  {
    assert o.code + Raw([]) == o.code;
    if o.loops != [] {
      var l := o.loops[0];
      assert LoopRec(l.brk + [], l.cont + [], l.depth) == l;
      assert [l] + o.loops[1..] == o.loops;
    }
  }

  lemma RawJoin(a: seq<Sym>, b: seq<Sym>)
    ensures Raw(a + b) == Raw(a) + Raw(b)
  {}

  lemma AppendJoin(o: Out, a: seq<Sym>, b: seq<Sym>)
    ensures Append(Append(o, a), b) == Append(o, a + b)
  {
    hide Raw, Sites;
    RawJoin(a, b);
    var at := |o.code|;
    JoinSites(o.bounds, a, b, at, ToPanic);
    assert (o.code + Raw(a)) + Raw(b) == o.code + (Raw(a) + Raw(b));
    if o.loops != [] {
      JoinSites(o.loops[0].brk, a, b, at, ToBreak);
      JoinSites(o.loops[0].cont, a, b, at, ToContinue);
    }
  }

  lemma JoinSites(l0: seq<nat>, a: seq<Sym>, b: seq<Sym>, base: nat, l: Label)
    ensures l0 + Sites(a, base, l) + Sites(b, base + |a|, l) == l0 + Sites(a + b, base, l)
  {
    SitesJoin(a, b, base, l);
  }

  lemma OneSite(s: Sym, base: nat, l: Label)
    ensures Sites([s], base, l) == if LabelOf(s) == l then [base] else []
  {
    assert [s][..0] == [];
  }

  // ----- patching -----

  function Retarget(i: Instr, rel: int): Instr {
    match i
    case Jmp(_) => Jmp(rel)
    case Jcc(cc, _) => Jcc(cc, rel)
    case _ => i
  }

  predicate Within(l: seq<nat>, n: nat) { forall i :: 0 <= i < |l| ==> l[i] < n }

  /** The code after every jump in the list was made to go to `target`. */
  function Patched(c: seq<Instr>, l: seq<nat>, target: int): (r: seq<Instr>)
    requires Within(l, |c|)
    ensures |r| == |c|
  {
    if l == [] then c
    else
      var n := |l| - 1;
      Patched(c, l[..n], target)[l[n] := Retarget(c[l[n]], target - (l[n] + 1))]
  }

  lemma {:induction false} SitesInside(c: seq<Sym>, base: nat, l: Label)
    ensures forall i :: 0 <= i < |Sites(c, base, l)| ==> base <= Sites(c, base, l)[i] < base + |c|
    decreases |c|
  {
    if c != [] { SitesInside(c[..|c| - 1], base, l); }
  }

  /** Patching the sites of a label touches exactly those. */
  lemma {:induction false} PatchedAt(code: seq<Instr>, c: seq<Sym>, base: nat, l: Label, target: int, i: nat)
    requires base + |c| <= |code| && i < |code|
    ensures Within(Sites(c, base, l), |code|)
    ensures Patched(code, Sites(c, base, l), target)[i] ==
            if base <= i < base + |c| && LabelOf(c[i - base]) == l then Retarget(code[i], target - (i + 1)) else code[i]
    decreases |c|
  {
    hide LabelOf, Retarget, Patched, Sites;
    SitesInside(c, base, l);
    if c == [] {
      NoSites(base, l);
      PatchedNone(code, target);
    } else {
      var n := |c| - 1;
      SitesInside(c[..n], base, l);
      PatchedAt(code, c[..n], base, l, target, i);
      SitesSnoc(c, base, l);
      if LabelOf(c[n]) == l { PatchedSnoc(code, Sites(c[..n], base, l), base + n, target); }
    }
  }

  lemma NoSites(base: nat, l: Label)
    ensures Sites([], base, l) == []
  {}

  lemma PatchedNone(c: seq<Instr>, target: int)
    ensures Patched(c, [], target) == c
  {}

  lemma SitesSnoc(c: seq<Sym>, base: nat, l: Label)
    requires c != []
    ensures var n := |c| - 1; Sites(c, base, l) == if LabelOf(c[n]) == l then Sites(c[..n], base, l) + [base + n]
        else Sites(c[..n], base, l)
  {}

  lemma PatchedSnoc(c: seq<Instr>, l: seq<nat>, p: nat, target: int)
    requires Within(l, |c|) && p < |c|
    ensures Patched(c, l + [p], target) == Patched(c, l, target)[p := Retarget(c[p], target - (p + 1))]
  {
    assert (l + [p])[..|l|] == l;
  }

  /** The code with label l resolved to position t in it. */
  function Resolve(c: seq<Sym>, l: Label, t: int): (r: seq<Sym>)
    ensures |r| == |c|
  {
    seq(|c|, i requires 0 <= i < |c| => ResolveSym(c[i], l, t - (i + 1)))
  }

  function ResolveSym(s: Sym, l: Label, rel: int): Sym {
    if s.Plain? || LabelOf(s) != l then s else WithRel(s, rel)
  }

  function WithRel(s: Sym, rel: int): Sym {
    match s
    case Plain(_) => s
    case SymJmp(_) => SymJmp(Rel(rel))
    case SymJcc(cc, _) => SymJcc(cc, Rel(rel))
  }

  /** Patching the sites of a label is resolving it. */
  lemma ResolvePatched(code: seq<Instr>, c: seq<Sym>, l: Label, t: int)
    requires !l.Rel?
    ensures Within(Sites(c, |code|, l), |code + Raw(c)|)
    ensures Patched(code + Raw(c), Sites(c, |code|, l), |code| + t) == code + Raw(Resolve(c, l, t))
  {
    hide Patched, Sites, Retarget, RawSym, ResolveSym, LabelOf;
    var at := |code|;
    SitesInside(c, at, l);
    var r := Patched(code + Raw(c), Sites(c, at, l), at + t);
    forall i | 0 <= i < |r|
      ensures r[i] == (code + Raw(Resolve(c, l, t)))[i]
    {
      PatchedAt(code + Raw(c), c, at, l, at + t, i);
      if i >= at { ResolvedRaw(c[i - at], l, at + t - (i + 1)); }
    }
  }

  lemma ResolvedRaw(s: Sym, l: Label, rel: int)
    requires !l.Rel?
    ensures RawSym(ResolveSym(s, l, rel)) == if LabelOf(s) == l then Retarget(RawSym(s), rel) else RawSym(s)
  {}

  lemma {:induction false} ResolveSites(c: seq<Sym>, l: Label, t: int, base: nat, l': Label)
    requires !l.Rel? && !l'.Rel?
    ensures Sites(Resolve(c, l, t), base, l') == if l' == l then [] else Sites(c, base, l')
    decreases |c|
  {
    if c != [] {
      var n := |c| - 1;
      assert Resolve(c, l, t)[..n] == Resolve(c[..n], l, t);
      ResolveSites(c[..n], l, t, base, l');
    }
  }

  lemma CloseIsResolve(c: seq<Sym>, next: seq<Sym>, brk: int, cont: int)
    requires Closed(next)
    ensures Close(c + next, brk, cont) == Resolve(Resolve(c, ToContinue, cont) + next, ToBreak, brk)
  {
    var l, r := Close(c + next, brk, cont), Resolve(Resolve(c, ToContinue, cont) + next, ToBreak, brk);
    forall i | 0 <= i < |l|
      ensures l[i] == r[i]
    {}
  }

  // ----- code without loop labels -----

  lemma ClosedJoin(a: seq<Sym>, b: seq<Sym>)
    requires Closed(a) && Closed(b)
    ensures Closed(a + b)
  {}

  lemma ExprClosed(fr: Frame, e: Expr, d: nat)
    requires ExprOk(e, Lens(fr))
    ensures Closed(ExprCode(fr, e, d))
  {
    ExprTidy(fr, e, d);
    TidyBoth(ExprCode(fr, e, d));
  }

  lemma OptClosed(fr: Frame, e: Option<Expr>, missing: seq<Sym>, d: nat)
    requires OptOk(e, Lens(fr)) && Closed(missing)
    ensures Closed(OptCode(fr, e, missing, d))
  {
    if e.Some? { ExprClosed(fr, e.value, d); }
  }

  lemma CloseClosed(c: seq<Sym>, brk: int, cont: int)
    ensures Closed(Close(c, brk, cont))
  {}

  lemma {:induction false} StmtClosed(fr: Frame, s: Stmt, u: Unwind, d: nat)
    requires StmtOk(s, Lens(fr), u.inDefer) && UnwindOk(u, Lens(fr)) && JumpsInside(s, false)
    ensures Closed(StmtCode(fr, s, u, d))
    decreases Weight(u) + Size(s), 1
  {
    match s
    case Block(b) =>
      DefersOk(b, Lens(fr), u.inDefer);
      BlockClosed(fr, b, OpenScope(u), d);
      PendingClosed(fr, DefersOf(b), d);
    case Expression(e) => OptClosed(fr, e, [], d);
    case Return(e) => ReturnClosed(fr, e, u, d);
    case If(c, t, e) => IfClosed(fr, c, t, e, u, d);
    case For(i, c, step, b) => ForClosed(fr, s, u, d);
    case _ => assert false;
  }

  lemma ForClosed(fr: Frame, s: Stmt, u: Unwind, d: nat)
    requires s.For? && StmtOk(s, Lens(fr), u.inDefer) && UnwindOk(u, Lens(fr)) && JumpsInside(s, false)
    ensures Closed(StmtCode(fr, s, u, d))
    decreases Weight(u) + Size(s), 0
  {
    hide HeadCode, OptCode, OpenLoop, StmtCode, Closed, Close;
    var For(i, c, step, b) := s;
    ForCode(fr, s, u, d);
    var head, body, next := HeadCode(fr, c, d), StmtCode(fr, b, EnterLoop(u), d), OptCode(fr, step, [], d);
    CloseClosed(OpenLoop(head, body, next), |head| + |body| + |next| + 1, |head| + |body|);
    if i.Some? {
      StmtClosed(fr, i.value, u, d);
      ClosedJoin(StmtCode(fr, i.value, u, d), LoopCode(head, body, next));
    }
  }

  lemma ForCode(fr: Frame, s: Stmt, u: Unwind, d: nat)
    requires s.For? && StmtOk(s, Lens(fr), u.inDefer) && UnwindOk(u, Lens(fr))
    ensures var code := LoopCode(HeadCode(fr, s.test, d), StmtCode(fr, s.loop, EnterLoop(u), d),
        OptCode(fr, s.step, [], d));
      StmtCode(fr, s, u, d) == if s.init.None? then code else StmtCode(fr, s.init.value, u, d) + code
  {
    hide HeadCode, OptCode, LoopCode;
  }

  lemma ReturnClosed(fr: Frame, e: Option<Expr>, u: Unwind, d: nat)
    requires StmtOk(Return(e), Lens(fr), u.inDefer) && UnwindOk(u, Lens(fr))
    ensures Closed(StmtCode(fr, Return(e), u, d))
    decreases Weight(u) + 1, 0
  {
    hide ExprCode, UnwindCode;
    OptClosed(fr, e, P(MovImm(RAX, 0)), d);
    UnwindClosed(fr, u.open, d + 1);
  }

  lemma IfClosed(fr: Frame, c: Expr, t: Stmt, e: Option<Stmt>, u: Unwind, d: nat)
    requires StmtOk(If(c, t, e), Lens(fr), u.inDefer) && UnwindOk(u, Lens(fr)) && JumpsInside(If(c, t, e), false)
    ensures Closed(StmtCode(fr, If(c, t, e), u, d))
    decreases Weight(u) + Size(If(c, t, e)), 0
  {
    hide ExprCode, ExprOk;
    ExprClosed(fr, c, d);
    StmtClosed(fr, t, u, d);
    var tc := StmtCode(fr, t, u, d);
    if e.Some? {
      StmtClosed(fr, e.value, u, d);
      var ec := StmtCode(fr, e.value, u, d);
      assert Closed(Skipping(tc, |ec|));
      assert Closed(Branch(ExprCode(fr, c, d), Rel(|tc| + 1)));
      ClosedJoin(Skipping(tc, |ec|), ec);
      ClosedJoin(Branch(ExprCode(fr, c, d), Rel(|tc| + 1)), Skipping(tc, |ec|) + ec);
    }
  }

  lemma {:induction false} BlockClosed(fr: Frame, b: seq<Stmt>, u: Unwind, d: nat)
    requires BlockOk(b, Lens(fr), u.inDefer) && UnwindOk(u, Lens(fr)) && forall i :: 0 <= i < |b| ==>
      JumpsInside(b[i], false)
    ensures Closed(BlockCode(fr, b, u, d))
    decreases Weight(u) + SizeAll(b), 0
  {
    if b != [] {
      if b[0].Defer? {
        RegisterWeight(u, b[0].d);
        assert SizeAll(b) == 2 + Size(b[0].d) + SizeAll(b[1..]);
        BlockClosed(fr, b[1..], Register(u, b[0].d), d);
      } else {
        StmtClosed(fr, b[0], u, d);
        BlockClosed(fr, b[1..], u, d);
      }
    }
  }

  lemma {:induction false} PendingClosed(fr: Frame, l: seq<Stmt>, d: nat)
    requires PendingOk(l, Lens(fr))
    ensures Closed(PendingCode(fr, l, d))
    decreases SizeAll(l), 0
  {
    if l != [] {
      StmtClosed(fr, l[0], DEFERRED, d);
      PendingClosed(fr, l[1..], d);
    }
  }

  lemma {:induction false} UnwindClosed(fr: Frame, open: seq<seq<Stmt>>, d: nat)
    requires ScopesOk(open, Lens(fr))
    ensures Closed(UnwindCode(fr, open, d))
    decreases SizeOpen(open), 1
  {
    if open != [] {
      PendingClosed(fr, open[0], d);
      UnwindClosed(fr, open[1..], d);
    }
  }
}
