/** The code generator: one pass over the tree that appends to a code buffer, keeps the depth of the
    stack, and patches jumps once their targets are known. Every method is proved to append exactly
    the code of `Lowering`. */
module Generator {
  import opened Common
  import opened Source
  import opened Machine
  import opened Lowering
  import opened Simulation
  import opened Functions
  import opened Registers
  import opened Unwinding
  import opened Emission
  import Statements

  /** A jump whose target is not known yet. */
  function Unknown(op: Option<Cc>): Sym {
    match op case None => SymJmp(Rel(0)) case Some(cc) => SymJcc(cc, Rel(0))
  }

  lemma AppendOne(o: Out, i: Instr)
    ensures Append(o, P(i)) == Out(o.code + [i], o.bounds, o.loops)
  {
    AppendSym(o, Plain(i));
  }

  lemma AppendSym(o: Out, s: Sym)
    requires LabelOf(s).Rel?
    ensures Append(o, [s]) == Out(o.code + [RawSym(s)], o.bounds, o.loops)
  {
    OneSite(s, |o.code|, ToPanic);
    OneSite(s, |o.code|, ToBreak);
    OneSite(s, |o.code|, ToContinue);
    assert Raw([s]) == [RawSym(s)];
    AppendNothing(o);
  }

  lemma Append3(o: Out, a: seq<Sym>, b: seq<Sym>, c: seq<Sym>)
    ensures Append(Append(Append(o, a), b), c) == Append(o, a + b + c)
  {
    hide Append;
    AppendJoin(o, a, b);
    AppendJoin(o, a + b, c);
  }

  lemma Append4(o: Out, a: seq<Sym>, b: seq<Sym>, c: seq<Sym>, d: seq<Sym>)
    ensures Append(Append(Append(Append(o, a), b), c), d) == Append(o, a + b + c + d)
  {
    hide Append;
    Append3(o, a, b, c);
    AppendJoin(o, a + b + c, d);
  }

  lemma Append5(o: Out, a: seq<Sym>, b: seq<Sym>, c: seq<Sym>, d: seq<Sym>, e: seq<Sym>)
    ensures Append(Append(Append(Append(Append(o, a), b), c), d), e) == Append(o, a + b + c + d + e)
  {
    hide Append;
    Append4(o, a, b, c, d);
    AppendJoin(o, a + b + c + d, e);
  }

  /** Setting the displacement of an unknown jump. */
  lemma PatchOne(o: Out, c: seq<Sym>, i: nat, rel: int)
    requires i < |c| && !c[i].Plain? && LabelOf(c[i]).Rel?
    ensures |o.code| + i < |Append(o, c).code|
    ensures Append(o, c[i := WithRel(c[i], rel)])
        == Append(o, c).(code := Append(o, c).code[|o.code| + i := Retarget(Append(o, c).code[|o.code| + i], rel)])
  {
    hide Sites;
    var c' := c[i := WithRel(c[i], rel)];
    RelNoSite(c, i, rel, |o.code|, ToPanic);
    RelNoSite(c, i, rel, |o.code|, ToBreak);
    RelNoSite(c, i, rel, |o.code|, ToContinue);
    assert Raw(c') == Raw(c)[i := Retarget(Raw(c)[i], rel)];
  }

  lemma {:induction false} RelNoSite(c: seq<Sym>, i: nat, rel: int, base: nat, l: Label)
    requires i < |c| && LabelOf(c[i]).Rel? && !l.Rel?
    ensures Sites(c[i := WithRel(c[i], rel)], base, l) == Sites(c, base, l)
    decreases |c|
  {
    var n := |c| - 1;
    var c' := c[i := WithRel(c[i], rel)];
    if i == n {
      assert c'[..n] == c[..n];
    } else {
      assert c'[..n] == c[..n][i := WithRel(c[i], rel)];
      RelNoSite(c[..n], i, rel, base, l);
    }
  }

  /** A condition, tested, and a jump to be patched. */
  function Tested(c: seq<Sym>, cc: Cc): (r: seq<Sym>)
    ensures |r| == |c| + 2 && r[|c| + 1] == Unknown(Some(cc))
  {
    c + P(TestRax) + [Unknown(Some(cc))]
  }

  /** A short-circuit operator up to its last jump, nothing patched. */
  function CircuitCode0(ca: seq<Sym>, cb: seq<Sym>, cc: Cc, both: I64): (c: seq<Sym>)
    ensures |c| == |ca| + |cb| + 6 && c[|ca| + 1] == Unknown(Some(cc)) && c[|ca| + |cb| + 3] == Unknown(Some(cc))
        && c[|ca| + |cb| + 5] == Unknown(None)
  {
    Tested(ca, cc) + Tested(cb, cc) + P(MovImm(RAX, both)) + [Unknown(None)]
  }

  function CircuitCode1(ca: seq<Sym>, cb: seq<Sym>, cc: Cc, both: I64): (c: seq<Sym>)
    ensures |c| == |ca| + |cb| + 6 && c[|ca| + |cb| + 3] == Unknown(Some(cc)) && c[|ca| + |cb| + 5] == Unknown(None)
  {
    CircuitCode0(ca, cb, cc, both)[|ca| + 1 := SymJcc(cc, Rel(|cb| + 4))]
  }

  function CircuitCode2(ca: seq<Sym>, cb: seq<Sym>, cc: Cc, both: I64, decided: I64): (c: seq<Sym>)
    ensures |c| == |ca| + |cb| + 7 && c[|ca| + |cb| + 5] == Unknown(None)
  {
    CircuitCode1(ca, cb, cc, both)[|ca| + |cb| + 3 := SymJcc(cc, Rel(2))] + P(MovImm(RAX, decided))
  }

  lemma CircuitPatched(ca: seq<Sym>, cb: seq<Sym>, cc: Cc, both: I64, decided: I64)
    ensures CircuitCode2(ca, cb, cc, both, decided)[|ca| + |cb| + 5 := SymJmp(Rel(1))]
        == ShortCircuit(ca, cb, cc, both, decided)
  {
    hide MovImm;
  }

  lemma NoPops()
    ensures PopArgs(0) == []
  {}

  lemma CircuitAppended(o: Out, ca: seq<Sym>, cb: seq<Sym>, cc: Cc, both: I64)
    ensures Append(Append(Append(Append(o, Tested(ca, cc)), Tested(cb, cc)), P(MovImm(RAX, both))), [Unknown(None)])
        == Append(o, CircuitCode0(ca, cb, cc, both))
  {
    hide Append, Tested, MovImm;
    Append4(o, Tested(ca, cc), Tested(cb, cc), P(MovImm(RAX, both)), [Unknown(None)]);
  }

  lemma CircuitUnfold(ca: seq<Sym>, cb: seq<Sym>, cc: Cc, both: I64, decided: I64)
    ensures CircuitCode1(ca, cb, cc, both) == CircuitCode0(ca, cb, cc, both)[|ca| + 1 := SymJcc(cc, Rel(|cb| + 4))]
    ensures CircuitCode2(ca, cb, cc, both, decided)
        == CircuitCode1(ca, cb, cc, both)[|ca| + |cb| + 3 := SymJcc(cc, Rel(2))] + P(MovImm(RAX, decided))
  {}

  lemma CircuitExpr(fr: Frame, e: Expr, d: nat)
    requires ExprOk(e, Lens(fr)) && (e.AndAlso? || e.OrElse?)
    ensures ExprCode(fr, e, d) ==
            if e.AndAlso? then ShortCircuit(ExprCode(fr, e.a, d), ExprCode(fr, e.b, d), E, 1, 0)
                else ShortCircuit(ExprCode(fr, e.a, d), ExprCode(fr, e.b, d), NE, 0, 1)
  {}

  function OpTailCode(op: BinOp): seq<Sym> {
    P(MovReg(RDI, RAX)) + P(Pop(RAX)) + BinCode(op) + P(Pop(RDI)) + P(StoreRdi)
  }

  lemma BinOk(fr: Frame, op: BinOp, a: Expr, b: Expr)
    requires ExprOk(Bin(op, a, b), Lens(fr))
    ensures ExprOk(a, Lens(fr)) && ExprOk(b, Lens(fr))
  {}

  lemma BinSum(fr: Frame, op: BinOp, a: Expr, b: Expr, d: nat)
    requires ExprOk(Bin(op, a, b), Lens(fr))
    ensures ExprCode(fr, Bin(op, a, b), d) == ExprCode(fr, b, d) + P(Push(RAX)) + ExprCode(fr, a, d + 1) + P(Pop(RDI))
        + BinCode(op)
  {
    hide BinCode, P;
  }

  lemma OpAssignOk(fr: Frame, op: BinOp, p: Place, a: Expr)
    requires ExprOk(OpAssign(op, p, a), Lens(fr))
    ensures PlaceOk(p, Lens(fr)) && ExprOk(a, Lens(fr))
  {}

  lemma OpAssignSum(fr: Frame, op: BinOp, p: Place, a: Expr, d: nat)
    requires ExprOk(OpAssign(op, p, a), Lens(fr))
    ensures ExprCode(fr, OpAssign(op, p, a), d) ==
            PlaceCode(fr, p, d) + P(Push(RAX)) + P(LoadRax) + P(Push(RAX)) + ExprCode(fr, a, d + 2) + OpTailCode(op)
  {
    hide PlaceCode, BinCode, P;
  }

  lemma PopsStep(done: seq<Sym>, i: nat)
    requires 0 < i <= 6
    ensures done + PopArgs(i) == (done + P(Pop(CallRegs()[i - 1]))) + PopArgs(i - 1)
  {}

  lemma PendingHead(fr: Frame, l: seq<Stmt>, d: nat)
    requires PendingOk(l, Lens(fr)) && l != []
    ensures Deferrable(l[0], Lens(fr)) && PendingOk(l[1..], Lens(fr))
    ensures SizeAll(l) == 1 + Size(l[0]) + SizeAll(l[1..])
    ensures PendingCode(fr, l, d) == StmtCode(fr, l[0], DEFERRED, d) + PendingCode(fr, l[1..], d)
  {}

  /** A jump that waits for its loop. */
  function LoopSym(op: Option<Cc>, l: Label): Sym {
    match op case None => SymJmp(l) case Some(cc) => SymJcc(cc, l)
  }

  lemma LoopSymAppended(o: Out, op: Option<Cc>, isBreak: bool)
    requires o.loops != []
    ensures var l := o.loops[0];
      Append(o, [LoopSym(op, if isBreak then ToBreak else ToContinue)]) ==
        Out(o.code + [if op.None? then Jmp(0) else Jcc(op.value, 0)], o.bounds,
            [if isBreak then l.(brk := l.brk + [|o.code|]) else l.(cont := l.cont + [|o.code|])] + o.loops[1..])
  {
    var s := LoopSym(op, if isBreak then ToBreak else ToContinue);
    OneSite(s, |o.code|, ToPanic);
    OneSite(s, |o.code|, ToBreak);
    OneSite(s, |o.code|, ToContinue);
    assert Raw([s]) == [RawSym(s)];
    assert o.bounds + [] == o.bounds && o.loops[0].brk + [] == o.loops[0].brk
        && o.loops[0].cont + [] == o.loops[0].cont;
  }

  /** A jump patched again keeps nothing of its first target. */
  lemma {:induction false} RetargetTwice(c: seq<Instr>, l: seq<nat>, at: nat, target: int, rel: int)
    requires Within(l, |c|) && at < |c|
    ensures Retarget(Patched(c, l, target)[at], rel) == Retarget(c[at], rel)
    decreases |l|
  {
    if l != [] {
      RetargetTwice(c, l[..|l| - 1], at, target, rel);
    }
  }

  lemma LeaveAppended(fr: Frame, o: Out, c: seq<Sym>, open: seq<seq<Stmt>>, d: nat, o1: Out, o2: Out)
    requires ScopesOk(open, Lens(fr)) && o1 == Append(o, c)
    requires o2 == if open == [] then o1
        else Append(Append(Append(o1, P(Push(RAX))), UnwindCode(fr, open, d + 1)), P(Pop(RAX)))
    ensures Append(Append(o2, P(Leave)), P(Ret)) == Append(o, c + LeaveCode(fr, open, d))
  {
    hide Append, UnwindCode, P;
    var save := if open == [] then [] else P(Push(RAX)) + UnwindCode(fr, open, d + 1) + P(Pop(RAX));
    if open != [] { Append3(o1, P(Push(RAX)), UnwindCode(fr, open, d + 1), P(Pop(RAX))); } else { AppendNothing(o1); }
    assert o2 == Append(o1, save);
    Append3(o1, save, P(Leave), P(Ret));
    AppendJoin(o, c, LeaveCode(fr, open, d));
  }

  lemma IfPatched(fr: Frame, s: Stmt, u: Unwind, d: nat)
    requires s.If? && s.els.None? && StmtOk(s, Lens(fr), u.inDefer) && UnwindOk(u, Lens(fr))
    ensures var cc, tc := ExprCode(fr, s.cond, d), StmtCode(fr, s.thn, u, d);
      StmtCode(fr, s, u, d) == (Tested(cc, E) + tc)[|cc| + 1 := SymJcc(E, Rel(|tc|))]
  {
    hide ExprCode;
  }

  lemma IfElsePatched(fr: Frame, s: Stmt, u: Unwind, d: nat)
    requires s.If? && s.els.Some? && StmtOk(s, Lens(fr), u.inDefer) && UnwindOk(u, Lens(fr))
    ensures var cc, tc, ec := ExprCode(fr, s.cond, d), StmtCode(fr, s.thn, u, d), StmtCode(fr, s.els.value, u, d);
      StmtCode(fr, s, u, d) == ((Tested(cc, E) + tc + [Unknown(None)])[|cc| + 1 := SymJcc(E, Rel(|tc| + 1))]
          + ec)[|cc| + 2 + |tc| := SymJmp(Rel(|ec|))]
  {
    hide ExprCode, StmtCode;
    Statements.IfElseUnfold(fr, s.cond, s.thn, s.els.value, u, d);
  }

  /** The code of a loop. */
  function LoopOf(fr: Frame, s: Stmt, u: Unwind, d: nat): seq<Sym>
    requires s.For? && StmtOk(s, Lens(fr), u.inDefer) && UnwindOk(u, Lens(fr))
  {
    LoopCode(HeadCode(fr, s.test, d), StmtCode(fr, s.loop, EnterLoop(u), d), OptCode(fr, s.step, [], d))
  }

  /** The buffer when a loop has just been opened. */
  predicate Opened(o0: Out, o: Out) {
    o.loops != [] && o == o0.(loops := [LoopRec([], [], o.loops[0].depth)] + o0.loops)
  }

  lemma ContPatched(o: Out, c: seq<Sym>)
    requires o.loops != [] && o.loops[0].cont == []
    ensures var n := Append(o, c);
      && Within(n.loops[0].cont, |n.code|)
      && Append(o, Resolve(c, ToContinue, |c|))
          == Out(Patched(n.code, n.loops[0].cont, |n.code|), n.bounds, [n.loops[0].(cont := [])] + n.loops[1..])
  {
    hide Resolve, Sites, Patched, Raw;
    var at := |o.code|;
    ResolvePatched(o.code, c, ToContinue, |c|);
    ResolveSites(c, ToContinue, |c|, at, ToPanic);
    ResolveSites(c, ToContinue, |c|, at, ToBreak);
    ResolveSites(c, ToContinue, |c|, at, ToContinue);
    assert [] + Sites(c, at, ToContinue) == Sites(c, at, ToContinue) && o.loops[0].cont + [] == [];
  }

  lemma BreakResolved(o0: Out, o: Out, c: seq<Sym>)
    requires Opened(o0, o) && Sites(c, |o.code|, ToContinue) == []
    ensures var n := Append(o, c);
      && Within(n.loops[0].brk, |n.code|)
      && Append(o0, Resolve(c, ToBreak, |c|)) == Out(Patched(n.code, n.loops[0].brk, |n.code|), n.bounds, n.loops[1..])
  {
    hide Resolve, Sites, Patched, Raw, Append;
    var at := |o.code|;
    var r := Resolve(c, ToBreak, |c|);
    ResolvePatched(o.code, c, ToBreak, |c|);
    ResolveSites(c, ToBreak, |c|, at, ToPanic);
    ResolveSites(c, ToBreak, |c|, at, ToBreak);
    ResolveSites(c, ToBreak, |c|, at, ToContinue);
    AppendParts(o, c);
    AppendParts(o0, r);
    FreshSites(c, at, ToBreak);
    assert o.loops[1..] == o0.loops;
    if o0.loops != [] { NoNewSites(o0.loops[0]); assert [o0.loops[0]] + o0.loops[1..] == o0.loops; }
  }

  lemma FreshSites(c: seq<Sym>, base: nat, l: Label)
    ensures [] + Sites(c, base, l) == Sites(c, base, l)
  {}

  lemma NoNewSites(l: LoopRec)
    ensures LoopRec(l.brk + [], l.cont + [], l.depth) == l
  {}

  lemma AppendParts(o: Out, c: seq<Sym>)
    ensures var n := Append(o, c);
      var at := |o.code|;
      && n.code == o.code + Raw(c) && n.bounds == o.bounds + Sites(c, at, ToPanic)
      && (o.loops == [] ==> n.loops == [])
      && (o.loops != [] ==> n.loops == [LoopRec(o.loops[0].brk + Sites(c, at, ToBreak), o.loops[0].cont
          + Sites(c, at, ToContinue), o.loops[0].depth)] + o.loops[1..])
  {
    hide Raw, Sites;
  }

  lemma {:induction false} ClosedSites(c: seq<Sym>, base: nat)
    requires Closed(c)
    ensures Sites(c, base, ToContinue) == []
    decreases |c|
  {
    if c != [] { ClosedSites(c[..|c| - 1], base); }
  }

  /** The loop before its `break` jumps are patched. */
  function LoopHalf(fr: Frame, s: Stmt, u: Unwind, d: nat): seq<Sym>
    requires s.For? && StmtOk(s, Lens(fr), u.inDefer) && UnwindOk(u, Lens(fr))
  {
    var hb, next := HeadCode(fr, s.test, d) + StmtCode(fr, s.loop, EnterLoop(u), d), OptCode(fr, s.step, [], d);
    Resolve(hb, ToContinue, |hb|) + next + [SymJmp(Rel(-(|hb| + |next| + 1)))]
  }

  lemma BreakPatched(fr: Frame, s: Stmt, u: Unwind, d: nat, o0: Out, o: Out)
    requires s.For? && StmtOk(s, Lens(fr), u.inDefer) && UnwindOk(u, Lens(fr)) && Opened(o0, o)
    ensures var n := Append(o, LoopHalf(fr, s, u, d));
      && Within(n.loops[0].brk, |n.code|)
      && Append(o0, LoopOf(fr, s, u, d)) == Out(Patched(n.code, n.loops[0].brk, |n.code|), n.bounds, n.loops[1..])
  {
    hide Append, HeadCode, OptCode, StmtCode, Sites, Patched;
    var head, body, next := HeadCode(fr, s.test, d), StmtCode(fr, s.loop, EnterLoop(u), d), OptCode(fr, s.step, [], d);
    var hb := head + body;
    var tail := next + [SymJmp(Rel(-(|hb| + |next| + 1)))];
    var hb' := Resolve(hb, ToContinue, |hb|);
    OptClosed(fr, s.step, [], d);
    assert LoopHalf(fr, s, u, d) == hb' + tail;
    assert OpenLoop(head, body, next) == hb + tail;
    CloseIsResolve(hb, tail, |hb| + |tail|, |hb|);
    ResolveSites(hb, ToContinue, |hb|, |o.code|, ToContinue);
    ClosedSites(tail, |o.code| + |hb'|);
    SitesJoin(hb', tail, |o.code|, ToContinue);
    BreakResolved(o0, o, hb' + tail);
  }

  /** The scopes of u with one more, holding the defers l. */
  function InScope(u: Unwind, l: seq<Stmt>): Unwind { u.(open := [l] + u.open) }

  lemma DefersSnoc(b: seq<Stmt>, x: Stmt)
    ensures DefersOf(b + [x]) == if x.Defer? then [x.d] + DefersOf(b) else DefersOf(b)
    decreases |b|
  {
    if b != [] {
      assert (b + [x])[1..] == b[1..] + [x];
      DefersSnoc(b[1..], x);
    }
  }

  lemma BlockStart(fr: Frame, b: seq<Stmt>, u: Unwind)
    requires StmtOk(Block(b), Lens(fr), u.inDefer) && UnwindOk(u, Lens(fr))
    ensures DefersOf(b[..0]) == [] && OpenScope(u) == InScope(u, []) && UnwindOk(OpenScope(u), Lens(fr))
    ensures BlockOk(b, Lens(fr), u.inDefer) && b[0..] == b && Size(Block(b)) == 1 + SizeAll(b)
    ensures Weight(OpenScope(u)) == Weight(u) + 1
  {}

  lemma BlockJumps(b: seq<Stmt>, inLoop: bool)
    ensures JumpsInside(Block(b), inLoop) <==> forall j :: 0 <= j < |b| ==> JumpsInside(b[j], inLoop)
  {}

  /** The scopes and loops of the generator are those that the code is specified for; under a deferred
      statement there are others, which it does not touch. */
  predicate Tracked(u: Unwind, scopes: seq<seq<Stmt>>, loops: seq<LoopRec>) {
    && |u.open| <= |scopes| && scopes[..|u.open|] == u.open
    && (u.inLoop ==> loops != [] && loops[0].depth == |scopes| - |u.open| + u.outsideLoop)
    && (!u.inDefer ==> |scopes| == |u.open| && (u.inLoop <==> loops != []))
  }

  lemma TrackedInside(u: Unwind, l: seq<Stmt>, scopes: seq<seq<Stmt>>, loops: seq<LoopRec>, loops': seq<LoopRec>)
    requires Tracked(u, scopes, loops) && (loops' != [] <==> loops != [])
        && (loops != [] ==> loops'[0].depth == loops[0].depth)
    ensures Tracked(InScope(u, l), [l] + scopes, loops')
  {
    assert ([l] + scopes)[..|u.open| + 1] == [l] + scopes[..|u.open|];
  }

  /** A defer by itself has no code. */
  function ItemCode(fr: Frame, x: Stmt, w: Unwind, d: nat): seq<Sym>
    requires UnwindOk(w, Lens(fr)) && (x.Defer? || StmtOk(x, Lens(fr), w.inDefer))
  {
    if x.Defer? then [] else StmtCode(fr, x, w, d)
  }

  lemma ItemDone(done: seq<Sym>, c: seq<Sym>, rest: seq<Sym>)
    ensures done + (c + rest) == (done + c) + rest
  {}

  /** One statement of a block. */
  lemma BlockNext(fr: Frame, b: seq<Stmt>, i: nat, u: Unwind, w: Unwind, d: nat, inLoop: bool)
    requires i < |b| && BlockOk(b[i..], Lens(fr), u.inDefer)
    requires UnwindOk(w, Lens(fr)) && w == InScope(u, DefersOf(b[..i]))
    ensures BlockOk(b[i + 1..], Lens(fr), u.inDefer) && SizeAll(b[i..]) == 1 + Size(b[i]) + SizeAll(b[i + 1..])
    ensures b[i].Defer? ==>
      && JumpsInside(b[i], inLoop) && Deferrable(b[i].d, Lens(fr))
      && Weight(Register(w, b[i].d)) <= Weight(w) + Size(b[i]) && UnwindOk(Register(w, b[i].d), Lens(fr))
      && Register(w, b[i].d) == InScope(u, DefersOf(b[..i + 1])) && DefersOf(b[..i + 1]) == [b[i].d] + DefersOf(b[..i])
      && BlockCode(fr, b[i..], w, d) == ItemCode(fr, b[i], w, d) + BlockCode(fr, b[i + 1..], Register(w, b[i].d), d)
    ensures !b[i].Defer? ==>
      && StmtOk(b[i], Lens(fr), u.inDefer) && DefersOf(b[..i + 1]) == DefersOf(b[..i])
      && BlockCode(fr, b[i..], w, d) == ItemCode(fr, b[i], w, d) + BlockCode(fr, b[i + 1..], w, d)
  {
    hide StmtCode, DefersOf;
    assert b[i..][0] == b[i] && b[i..][1..] == b[i + 1..] && b[..i + 1] == b[..i] + [b[i]];
    DefersSnoc(b[..i], b[i]);
    if b[i].Defer? {
      RegisterKeeps(w, b[i].d, Lens(fr));
      RegisterWeight(w, b[i].d);
    }
  }

  lemma RegisterKeeps(w: Unwind, x: Stmt, lens: seq<nat>)
    requires UnwindOk(w, lens) && Deferrable(x, lens)
    ensures UnwindOk(Register(w, x), lens)
  {
    if w.open != [] {
      assert ([x] + w.open[0])[1..] == w.open[0];
      assert PendingOk([x] + w.open[0], lens);
    }
  }

  lemma BlockEnd(fr: Frame, b: seq<Stmt>, u: Unwind, w: Unwind, d: nat)
    requires StmtOk(Block(b), Lens(fr), u.inDefer)
    requires UnwindOk(u, Lens(fr)) && UnwindOk(w, Lens(fr)) && w.inDefer == u.inDefer
    ensures PendingOk(DefersOf(b), Lens(fr)) && SizeAll(DefersOf(b)) < Size(Block(b))
    ensures BlockCode(fr, b[|b|..], w, d) == []
    ensures BlockOk(b, Lens(fr), u.inDefer) && UnwindOk(OpenScope(u), Lens(fr)) && StmtCode(fr, Block(b), u, d)
        == BlockCode(fr, b, OpenScope(u), d) + PendingCode(fr, DefersOf(b), d)
  {
    hide PendingCode;
    DefersOk(b, Lens(fr), u.inDefer);
  }

  class Emitter {
    var code: seq<Instr>
    var depth: nat
    var bounds: seq<nat>
    var loops: seq<LoopRec>
    var scopes: seq<seq<Stmt>>

    constructor ()
      ensures Now() == Out([], [], []) && depth == 0 && scopes == []
    {
      code, depth, bounds, loops, scopes := [], 0, [], [], [];
    }

    function Now(): Out
      reads this
    {
      Out(code, bounds, loops)
    }

    method Emit(i: Instr)
      modifies this`code
      ensures Now() == Append(old(Now()), P(i))
    {
      hide Append;
      AppendOne(Now(), i);
      code := code + [i];
    }

    method PushReg(r: Reg)
      modifies this`code, this`depth
      ensures Now() == Append(old(Now()), P(Push(r))) && depth == old(depth) + 1
    {
      hide Append;
      Emit(Push(r));
      depth := depth + 1;
    }

    method PopReg(r: Reg)
      requires depth > 0
      modifies this`code, this`depth
      ensures Now() == Append(old(Now()), P(Pop(r))) && depth == old(depth) - 1
    {
      hide Append;
      Emit(Pop(r));
      depth := depth - 1;
    }

    /** Emits a jump to be patched; returns where. */
    method Jump(op: Option<Cc>) returns (at: nat)
      modifies this`code
      ensures Now() == Append(old(Now()), [Unknown(op)]) && at == |old(code)|
    {
      hide Append;
      at := |code|;
      AppendSym(Now(), Unknown(op));
      code := code + [if op.None? then Jmp(0) else Jcc(op.value, 0)];
    }

    /** The jump emitted at `at` goes to the next instruction. Here o is the buffer before the code c. */
    method PatchHere(at: nat, ghost o: Out, ghost c: seq<Sym>)
      requires Now() == Append(o, c) && |o.code| <= at < |o.code| + |c| && !c[at - |o.code|].Plain?
          && LabelOf(c[at - |o.code|]).Rel?
      modifies this`code
      ensures var i := at - |o.code|; Now() == Append(o, c[i := WithRel(c[i], |c| - (i + 1))])
    {
      hide Append;
      PatchOne(o, c, at - |o.code|, |code| - (at + 1));
      assert |code| == |o.code| + |c|;
      code := code[at := Retarget(code[at], |code| - (at + 1))];
    }

    /** A conditional jump to the panic stub. */
    method JumpBounds(cc: Cc)
      modifies this`code, this`bounds
      ensures Now() == Append(old(Now()), [SymJcc(cc, ToPanic)])
    {
      var s := SymJcc(cc, ToPanic);
      OneSite(s, |code|, ToPanic);
      OneSite(s, |code|, ToBreak);
      OneSite(s, |code|, ToContinue);
      AppendNothing(Now());
      assert Raw([s]) == [Jcc(cc, 0)];
      bounds := bounds + [|code|];
      code := code + [Jcc(cc, 0)];
    }

    // ----- expressions -----

    method GenPlace(fr: Frame, p: Place)
      requires PlaceOk(p, Lens(fr))
      modifies this`code, this`bounds, this`loops, this`depth
      ensures Now() == Append(old(Now()), PlaceCode(fr, p, old(depth))) && depth == old(depth)
      decreases p, 1
    {
      hide Append, ExprCode;
      ghost var o := Now();
      match p
      case Local(x) => Emit(LeaLocal(RAX, fr[x].off));
      case Element(x, i) =>
        Emit(LeaLocal(RAX, fr[x].off));
        PushReg(RAX);
        GenExpr(fr, i);
        GenIndex(fr, x);
        Append4(o, P(LeaLocal(RAX, fr[x].off)), P(Push(RAX)), ExprCode(fr, i, old(depth) + 1), IndexCode(fr, x));
    }

    method GenIndex(fr: Frame, x: nat)
      requires x < |fr| && depth > 0
      modifies this`code, this`bounds, this`depth
      ensures Now() == Append(old(Now()), IndexCode(fr, x)) && depth == old(depth) - 1
    {
      hide Append;
      ghost var o := Now();
      Emit(CmpImm(fr[x].len));
      JumpBounds(AE);
      Emit(MovImm(RCX, 8));
      Emit(ImulRcx);
      PopReg(RDI);
      Append5(o, P(CmpImm(fr[x].len)), [SymJcc(AE, ToPanic)], P(MovImm(RCX, 8)), P(ImulRcx), P(Pop(RDI)));
      Emit(AddRdi);
      AppendJoin(o, P(CmpImm(fr[x].len)) + [SymJcc(AE, ToPanic)] + P(MovImm(RCX, 8)) + P(ImulRcx) + P(Pop(RDI)),
          P(AddRdi));
    }

    method GenBinop(op: BinOp)
      modifies this`code
      ensures Now() == Append(old(Now()), BinCode(op))
    {
      hide Append;
      ghost var o := Now();
      match op
      case Add => Emit(AddRdi);
      case Sub => Emit(SubRdi);
      case Mul => Emit(ImulRdi);
      case Div => Emit(Cqo); Emit(IdivRdi); AppendJoin(o, P(Cqo), P(IdivRdi));
      case Mod => Emit(Cqo); Emit(IdivRdi); Emit(MovReg(RAX, RDX)); Append3(o, P(Cqo), P(IdivRdi), P(MovReg(RAX, RDX)));
      case BitAnd => Emit(AndRdi);
      case BitOr => Emit(OrRdi);
      case BitXor => Emit(XorRdi);
      case ShiftLeft => Emit(MovReg(RCX, RDI)); Emit(ShlCl); AppendJoin(o, P(MovReg(RCX, RDI)), P(ShlCl));
      case ShiftRight => Emit(MovReg(RCX, RDI)); Emit(SarCl); AppendJoin(o, P(MovReg(RCX, RDI)), P(SarCl));
      case _ => Emit(CmpRdi); Emit(Setcc(CompareCode(op))); AppendJoin(o, P(CmpRdi), P(Setcc(CompareCode(op))));
    }

    method GenExpr(fr: Frame, e: Expr)
      requires ExprOk(e, Lens(fr))
      modifies this`code, this`bounds, this`loops, this`depth
      ensures Now() == Append(old(Now()), ExprCode(fr, e, old(depth))) && depth == old(depth)
      decreases e, 1
    {
      hide Append, BinCode, ShortCircuit, PlaceCode, ArgsCode, PopArgs, CallCode;
      ghost var o, d := Now(), depth;
      match e
      case Num(v) => Emit(MovImm(RAX, v));
      case Load(p) =>
        GenPlace(fr, p);
        Emit(LoadRax);
        AppendJoin(o, PlaceCode(fr, p, d), P(LoadRax));
      case Assign(p, a) => GenAssign(fr, p, a);
      case OpAssign(op, p, a) => GenOpAssign(fr, op, p, a);
      case Zero(x) => GenZero(fr, x);
      case Comma(a, b) =>
        GenExpr(fr, a);
        GenExpr(fr, b);
        AppendJoin(o, ExprCode(fr, a, d), ExprCode(fr, b, d));
      case Neg(a) =>
        GenExpr(fr, a);
        Emit(NegRax);
        AppendJoin(o, ExprCode(fr, a, d), P(NegRax));
      case BitNot(a) =>
        GenExpr(fr, a);
        Emit(NotRax);
        AppendJoin(o, ExprCode(fr, a, d), P(NotRax));
      case Not(a) =>
        GenExpr(fr, a);
        Emit(TestRax);
        Emit(Setcc(E));
        Append3(o, ExprCode(fr, a, d), P(TestRax), P(Setcc(E)));
      case Bin(op, a, b) => GenBin(fr, op, a, b);
      case AndAlso(_, _) => GenShort(fr, e);
      case OrElse(_, _) => GenShort(fr, e);
      case Call(name, args) =>
        GenArgs(fr, args);
        PopRegs(|args|);
        GenCall(name, |args|);
        Append3(o, ArgsCode(fr, args, d), PopArgs(|args|), CallCode(name, |args|, d));
    }

    method GenAssign(fr: Frame, p: Place, a: Expr)
      requires ExprOk(Assign(p, a), Lens(fr))
      modifies this`code, this`bounds, this`loops, this`depth
      ensures Now() == Append(old(Now()), ExprCode(fr, Assign(p, a), old(depth))) && depth == old(depth)
      decreases Assign(p, a), 0
    {
      hide Append, PlaceCode;
      ghost var o, d := Now(), depth;
      GenPlace(fr, p);
      PushReg(RAX);
      GenExpr(fr, a);
      PopReg(RDI);
      Emit(StoreRdi);
      Append5(o, PlaceCode(fr, p, d), P(Push(RAX)), ExprCode(fr, a, d + 1), P(Pop(RDI)), P(StoreRdi));
    }

    /** The right operand first, then the left one above it. */
    method GenBin(fr: Frame, op: BinOp, a: Expr, b: Expr)
      requires ExprOk(Bin(op, a, b), Lens(fr))
      modifies this`code, this`bounds, this`loops, this`depth
      ensures Now() == Append(old(Now()), ExprCode(fr, Bin(op, a, b), old(depth))) && depth == old(depth)
      decreases Bin(op, a, b), 0
    {
      hide Append, BinCode, ExprCode, P;
      BinOk(fr, op, a, b);
      hide ExprOk;
      ghost var o, d := Now(), depth;
      GenExpr(fr, b);
      PushReg(RAX);
      GenExpr(fr, a);
      PopReg(RDI);
      GenBinop(op);
      Append5(o, ExprCode(fr, b, d), P(Push(RAX)), ExprCode(fr, a, d + 1), P(Pop(RDI)), BinCode(op));
      BinSum(fr, op, a, b, d);
    }

    method GenOpAssign(fr: Frame, op: BinOp, p: Place, a: Expr)
      requires ExprOk(OpAssign(op, p, a), Lens(fr))
      modifies this`code, this`bounds, this`loops, this`depth
      ensures Now() == Append(old(Now()), ExprCode(fr, OpAssign(op, p, a), old(depth))) && depth == old(depth)
      decreases OpAssign(op, p, a), 0
    {
      hide Append, BinCode, PlaceCode, ExprCode, P, ExprOk, OpTailCode;
      OpAssignOk(fr, op, p, a);
      ghost var o, d := Now(), depth;
      GenPlace(fr, p);
      PushReg(RAX);
      Emit(LoadRax);
      PushReg(RAX);
      GenExpr(fr, a);
      Append5(o, PlaceCode(fr, p, d), P(Push(RAX)), P(LoadRax), P(Push(RAX)), ExprCode(fr, a, d + 2));
      GenOpTail(op);
      AppendJoin(o, PlaceCode(fr, p, d) + P(Push(RAX)) + P(LoadRax) + P(Push(RAX)) + ExprCode(fr, a, d + 2),
          OpTailCode(op));
      OpAssignSum(fr, op, p, a, d);
    }

    /** Exchanges the operands, applies the operator and stores the result. */
    method GenOpTail(op: BinOp)
      requires depth >= 2
      modifies this`code, this`depth
      ensures Now() == Append(old(Now()), OpTailCode(op)) && depth == old(depth) - 2
    {
      hide Append, BinCode, P;
      ghost var o := Now();
      Emit(MovReg(RDI, RAX));
      PopReg(RAX);
      GenBinop(op);
      PopReg(RDI);
      Emit(StoreRdi);
      Append5(o, P(MovReg(RDI, RAX)), P(Pop(RAX)), BinCode(op), P(Pop(RDI)), P(StoreRdi));
    }

    method GenZero(fr: Frame, x: nat)
      requires x < |fr|
      modifies this`code
      ensures Now() == Append(old(Now()), ExprCode(fr, Zero(x), depth))
    {
      hide Append;
      ghost var o := Now();
      if !fr[x].isArray {
        Emit(MovImm(RAX, 0));
        Emit(StLocal(fr[x].off, RAX));
        AppendJoin(o, P(MovImm(RAX, 0)), P(StLocal(fr[x].off, RAX)));
      } else {
        Emit(LeaLocal(RDI, fr[x].off));
        Emit(MovImm(RAX, 0));
        Emit(MovImm(RCX, Wrap(8 * fr[x].len)));
        Emit(RepStosb);
        Append4(o, P(LeaLocal(RDI, fr[x].off)), P(MovImm(RAX, 0)), P(MovImm(RCX, Wrap(8 * fr[x].len))), P(RepStosb));
      }
    }

    /** `&&` and `||`: two forward jumps to the last load, one over it. */
    method GenShort(fr: Frame, e: Expr)
      requires ExprOk(e, Lens(fr)) && (e.AndAlso? || e.OrElse?)
      modifies this`code, this`bounds, this`loops, this`depth
      ensures Now() == Append(old(Now()), ExprCode(fr, e, old(depth))) && depth == old(depth)
      decreases e, 0
    {
      hide Append, MovImm, ExprCode, CircuitCode0, CircuitCode1, CircuitCode2, ShortCircuit, Tested, P;
      ghost var o, d := Now(), depth;
      var cc := if e.AndAlso? then E else NE;
      var both: I64, decided: I64 := if e.AndAlso? then 1 else 0, if e.AndAlso? then 0 else 1;
      ghost var ca, cb := ExprCode(fr, e.a, d), ExprCode(fr, e.b, d);
      var skip := GenTest(fr, e.a, cc);
      var skip2 := GenTest(fr, e.b, cc);
      Emit(MovImm(RAX, both));
      var end := Jump(None);
      CircuitAppended(o, ca, cb, cc, both);
      PatchShort(cc, both, decided, skip, skip2, end, o, ca, cb);
      CircuitExpr(fr, e, d);
    }

    /** The two tests jump to the last load, the load before it jumps over. */
    method PatchShort(cc: Cc, both: I64, decided: I64, skip: nat, skip2: nat, end: nat, ghost o: Out,
        ghost ca: seq<Sym>, ghost cb: seq<Sym>)
      requires Now() == Append(o, CircuitCode0(ca, cb, cc, both))
      requires skip == |o.code| + |ca| + 1 && skip2 == skip + |cb| + 2 && end == skip2 + 2
      modifies this`code
      ensures Now() == Append(o, ShortCircuit(ca, cb, cc, both, decided))
    {
      hide Append, MovImm, CircuitCode0, CircuitCode1, CircuitCode2, ShortCircuit, P;
      PatchHere(skip, o, CircuitCode0(ca, cb, cc, both));
      ghost var c1 := CircuitCode1(ca, cb, cc, both);
      CircuitUnfold(ca, cb, cc, both, decided);
      PatchHere(skip2, o, c1);
      Emit(MovImm(RAX, decided));
      AppendJoin(o, c1[|ca| + |cb| + 3 := SymJcc(cc, Rel(2))], P(MovImm(RAX, decided)));
      PatchHere(end, o, CircuitCode2(ca, cb, cc, both, decided));
      CircuitPatched(ca, cb, cc, both, decided);
    }

    /** A condition and the jump that depends on it. */
    method GenTest(fr: Frame, c: Expr, cc: Cc) returns (at: nat)
      requires ExprOk(c, Lens(fr))
      modifies this`code, this`bounds, this`loops, this`depth
      ensures Now() == Append(old(Now()), Tested(ExprCode(fr, c, old(depth)), cc)) && depth == old(depth)
      ensures at == |old(code)| + |ExprCode(fr, c, old(depth))| + 1
      decreases c, 2
    {
      hide Append;
      ghost var o, d := Now(), depth;
      GenExpr(fr, c);
      Emit(TestRax);
      at := Jump(Some(cc));
      Append3(o, ExprCode(fr, c, d), P(TestRax), [Unknown(Some(cc))]);
    }

    /** Every argument is pushed in turn. */
    method GenArgs(fr: Frame, args: seq<Expr>)
      requires forall i :: 0 <= i < |args| ==> ExprOk(args[i], Lens(fr))
      modifies this`code, this`bounds, this`loops, this`depth
      ensures Now() == Append(old(Now()), ArgsCode(fr, args, old(depth))) && depth == old(depth) + |args|
      decreases args, 0
    {
      hide Append, ExprCode;
      ghost var o, d := Now(), depth;
      AppendNothing(o);
      for i := 0 to |args|
        invariant depth == d + i && Now() == Append(o, ArgsCode(fr, args[..i], d))
      {
        GenExpr(fr, args[i]);
        PushReg(RAX);
        Append3(o, ArgsCode(fr, args[..i], d), ExprCode(fr, args[i], d + i), P(Push(RAX)));
        assert args[..i + 1][..i] == args[..i];
      }
      assert args[..|args|] == args;
    }

    /** The last argument is popped first. */
    method PopRegs(n: nat)
      requires n <= 6 && depth >= n
      modifies this`code, this`depth
      ensures Now() == Append(old(Now()), PopArgs(n)) && depth == old(depth) - n
    {
      hide Append, PopArgs, P;
      ghost var o, done: seq<Sym> := Now(), [];
      AppendNothing(o);
      var i: nat := n;
      while i > 0
        invariant i <= n && depth == old(depth) - (n - i) && depth >= i
        invariant Now() == Append(o, done) && done + PopArgs(i) == PopArgs(n)
      {
        i := i - 1;
        PopReg(CallRegs()[i]);
        AppendJoin(o, done, P(Pop(CallRegs()[i])));
        PopsStep(done, i + 1);
        done := done + P(Pop(CallRegs()[i]));
      }
      assert PopArgs(0) == [] && done + [] == done by { NoPops(); }
    }

    method GenCall(name: string, n: nat)
      modifies this`code
      ensures Now() == Append(old(Now()), CallCode(name, n, depth))
    {
      hide Append;
      ghost var o := Now();
      var odd := depth % 2 == 1;
      if odd { Emit(SubRsp(8)); }
      Emit(CallFn(name, n));
      if odd {
        Emit(AddRsp(8));
        Append3(o, P(SubRsp(8)), P(CallFn(name, n)), P(AddRsp(8)));
      }
    }

    // ----- statements -----

    predicate Tracks(u: Unwind)
      reads this
    {
      Tracked(u, scopes, loops)
    }

    /** An expression, or nothing. */
    method GenOpt(fr: Frame, e: Option<Expr>)
      requires OptOk(e, Lens(fr))
      modifies this`code, this`bounds, this`loops, this`depth
      ensures Now() == Append(old(Now()), OptCode(fr, e, [], old(depth))) && depth == old(depth)
    {
      hide Append, ExprCode;
      AppendNothing(Now());
      if e.Some? { GenExpr(fr, e.value); }
    }

    /** The deferred statements of one scope, the most recent first. */
    method RunDefers(fr: Frame, l: seq<Stmt>)
      requires PendingOk(l, Lens(fr))
      modifies this
      ensures Now() == Append(old(Now()), PendingCode(fr, l, old(depth))) && depth == old(depth)
          && scopes == old(scopes)
      decreases SizeAll(l), 0
    {
      hide Append, StmtCode, StmtOk, JumpsInside;
      ghost var o, done: seq<Sym> := Now(), [];
      AppendNothing(o);
      var i: nat := 0;
      while i < |l|
        invariant i <= |l| && depth == old(depth) && scopes == old(scopes) && PendingOk(l[i..], Lens(fr))
            && SizeAll(l[i..]) <= SizeAll(l)
        invariant Now() == Append(o, done) && done + PendingCode(fr, l[i..], depth) == PendingCode(fr, l, depth)
      {
        PendingHead(fr, l[i..], depth);
        var ok := GenStmt(fr, l[i], DEFERRED);
        ghost var c := StmtCode(fr, l[i], DEFERRED, depth);
        AppendJoin(o, done, c);
        assert l[i..][1..] == l[i + 1..];
        assert done + (c + PendingCode(fr, l[i + 1..], depth)) == (done + c) + PendingCode(fr, l[i + 1..], depth);
        done := done + c;
        i := i + 1;
      }
      assert done + [] == done;
    }

    /** The defers of every scope deeper than `target`. */
    method UnwindTo(fr: Frame, target: nat)
      requires target <= |scopes| && ScopesOk(scopes[..|scopes| - target], Lens(fr))
      modifies this
      ensures Now() == Append(old(Now()), UnwindCode(fr, old(scopes)[..|old(scopes)| - target], old(depth)))
          && depth == old(depth) && scopes == old(scopes)
      decreases SizeOpen(scopes[..|scopes| - target]), 1
    {
      hide Append, PendingCode;
      ghost var o, done: seq<Sym> := Now(), [];
      ghost var open := scopes[..|scopes| - target];
      AppendNothing(o);
      var i: nat := 0;
      while i < |scopes| && |scopes| - i > target
        invariant i <= |open| && depth == old(depth) && scopes == old(scopes) && SizeOpen(open[i..]) <= SizeOpen(open)
        invariant Now() == Append(o, done) && done + UnwindCode(fr, open[i..], depth) == UnwindCode(fr, open, depth)
      {
        RunDefers(fr, scopes[i]);
        ghost var c := PendingCode(fr, scopes[i], depth);
        AppendJoin(o, done, c);
        assert open[i..][0] == scopes[i] && open[i..][1..] == open[i + 1..];
        assert done + (c + UnwindCode(fr, open[i + 1..], depth)) == (done + c) + UnwindCode(fr, open[i + 1..], depth);
        done := done + c;
        i := i + 1;
      }
      assert done + [] == done;
    }

    /** `break` and `continue`, or the test of a loop: the jump joins the loop's list. */
    method JumpOut(op: Option<Cc>, isBreak: bool)
      requires loops != []
      modifies this`code, this`loops
      ensures Now() == Append(old(Now()), [LoopSym(op, if isBreak then ToBreak else ToContinue)])
    {
      hide Append;
      LoopSymAppended(Now(), op, isBreak);
      var l := loops[0];
      loops := [if isBreak then l.(brk := l.brk + [|code|]) else l.(cont := l.cont + [|code|])] + loops[1..];
      code := code + [if op.None? then Jmp(0) else Jcc(op.value, 0)];
    }

    /** Every jump in the list goes to the next instruction. */
    method PatchAll(l: seq<nat>)
      requires Within(l, |code|)
      modifies this`code
      ensures code == Patched(old(code), l, |old(code)|)
    {
      for i := 0 to |l|
        invariant |code| == |old(code)| && code == Patched(old(code), l[..i], |code|)
      {
        PatchedSnoc(old(code), l[..i], l[i], |code|);
        assert l[..i] + [l[i]] == l[..i + 1];
        var at := l[i];
        RetargetTwice(old(code), l[..i], at, |code|, |code| - (at + 1));
        code := code[at := Retarget(code[at], |code| - (at + 1))];
      }
      assert l[..|l|] == l;
    }

    /** Back to the top of a loop. */
    method JumpBack(top: nat)
      requires top <= |code|
      modifies this`code
      ensures Now() == Append(old(Now()), [SymJmp(Rel(top - (|old(code)| + 1)))])
    {
      hide Append;
      AppendSym(Now(), SymJmp(Rel(top - (|code| + 1))));
      code := code + [Jmp(top - (|code| + 1))];
    }

    method GenStmt(fr: Frame, s: Stmt, ghost u: Unwind) returns (ok: bool)
      requires StmtOk(s, Lens(fr), u.inDefer) && UnwindOk(u, Lens(fr)) && Tracks(u)
      requires u.inDefer ==> JumpsInside(s, u.inLoop)
      modifies this
      ensures ok == JumpsInside(s, u.inLoop)
      ensures ok ==>
        Now() == Append(old(Now()), StmtCode(fr, s, u, old(depth))) && depth == old(depth) && scopes == old(scopes)
      decreases Weight(u) + Size(s), 1
    {
      hide Append, UnwindOk;
      match s
      case Block(b) => ok := GenBlock(fr, b, u);
      case Expression(e) =>
        GenOpt(fr, e);
        ok := true;
      case Return(e) =>
        GenReturn(fr, e, u);
        ok := true;
      case If(_, _, _) => ok := GenIf(fr, s, u);
      case For(_, _, _, _) => ok := GenFor(fr, s, u);
      case Break => ok := GenJump(fr, s, u);
      case Continue => ok := GenJump(fr, s, u);
    }

    /** `break` and `continue`, rejected outside of a loop. */
    method GenJump(fr: Frame, s: Stmt, ghost u: Unwind) returns (ok: bool)
      requires (s.Break? || s.Continue?) && StmtOk(s, Lens(fr), u.inDefer) && UnwindOk(u, Lens(fr)) && Tracks(u)
      requires u.inDefer ==> JumpsInside(s, u.inLoop)
      modifies this
      ensures ok == JumpsInside(s, u.inLoop)
      ensures ok ==>
        Now() == Append(old(Now()), StmtCode(fr, s, u, old(depth))) && depth == old(depth) && scopes == old(scopes)
      decreases Weight(u) + Size(s), 0
    {
      hide Append;
      ok := loops != [];
      if ok {
        ghost var o := Now();
        WeightOfPart(u.open, |u.open| - u.outsideLoop);
        assert scopes[..|scopes| - loops[0].depth] == Inner(u);
        UnwindTo(fr, loops[0].depth);
        JumpOut(None, s.Break?);
        AppendJoin(o, UnwindCode(fr, Inner(u), depth), [LoopSym(None, if s.Break? then ToBreak else ToContinue)]);
      }
    }

    /** The value stays on the stack while the defers of every scope run. */
    method GenReturn(fr: Frame, e: Option<Expr>, ghost u: Unwind)
      requires StmtOk(Return(e), Lens(fr), u.inDefer) && UnwindOk(u, Lens(fr)) && Tracks(u)
      modifies this
      ensures Now() == Append(old(Now()), StmtCode(fr, Return(e), u, old(depth))) && depth == old(depth)
          && scopes == old(scopes)
      decreases Weight(u) + Size(Return(e)), 0
    {
      hide Append, ExprCode, UnwindCode;
      ghost var o, d := Now(), depth;
      if e.Some? {
        GenExpr(fr, e.value);
      } else {
        Emit(MovImm(RAX, 0));
      }
      ghost var c := OptCode(fr, e, P(MovImm(RAX, 0)), d);
      assert Now() == Append(o, c);
      ghost var o1 := Now();
      assert scopes == u.open && scopes[..|scopes| - 0] == scopes;
      if scopes != [] {
        PushReg(RAX);
        UnwindTo(fr, 0);
        PopReg(RAX);
      }
      ghost var o2 := Now();
      Emit(Leave);
      Emit(Ret);
      LeaveAppended(fr, o, c, u.open, d, o1, o2);
    }

    method GenIf(fr: Frame, s: Stmt, ghost u: Unwind) returns (ok: bool)
      requires s.If? && StmtOk(s, Lens(fr), u.inDefer) && UnwindOk(u, Lens(fr)) && Tracks(u)
      requires u.inDefer ==> JumpsInside(s, u.inLoop)
      modifies this
      ensures ok == JumpsInside(s, u.inLoop)
      ensures ok ==>
        Now() == Append(old(Now()), StmtCode(fr, s, u, old(depth))) && depth == old(depth) && scopes == old(scopes)
      decreases Weight(u) + Size(s), 0
    {
      hide Append, ExprCode, Tested, StmtCode;
      ghost var o, d := Now(), depth;
      var els := GenTest(fr, s.cond, E);
      ok := GenStmt(fr, s.thn, u);
      if !ok { return; }
      ghost var cc, tc := ExprCode(fr, s.cond, d), StmtCode(fr, s.thn, u, d);
      AppendJoin(o, Tested(cc, E), tc);
      if s.els.None? {
        PatchHere(els, o, Tested(cc, E) + tc);
        IfPatched(fr, s, u, d);
      } else {
        var end := Jump(None);
        ghost var c1 := Tested(cc, E) + tc + [Unknown(None)];
        AppendJoin(o, Tested(cc, E) + tc, [Unknown(None)]);
        PatchHere(els, o, c1);
        ok := GenStmt(fr, s.els.value, u);
        if !ok { return; }
        ghost var ec := StmtCode(fr, s.els.value, u, d);
        ghost var c2 := c1[|cc| + 1 := SymJcc(E, Rel(|tc| + 1))];
        AppendJoin(o, c2, ec);
        PatchHere(end, o, c2 + ec);
        IfElsePatched(fr, s, u, d);
      }
    }

    method GenFor(fr: Frame, s: Stmt, ghost u: Unwind) returns (ok: bool)
      requires s.For? && StmtOk(s, Lens(fr), u.inDefer) && UnwindOk(u, Lens(fr)) && Tracks(u)
      requires u.inDefer ==> JumpsInside(s, u.inLoop)
      modifies this
      ensures ok == JumpsInside(s, u.inLoop)
      ensures ok ==>
        Now() == Append(old(Now()), StmtCode(fr, s, u, old(depth))) && depth == old(depth) && scopes == old(scopes)
      decreases Weight(u) + Size(s), 0
    {
      hide Append, HeadCode, OptCode, StmtCode, LoopCode;
      ghost var o := Now();
      ForCode(fr, s, u, depth);
      if s.init.Some? {
        ok := GenStmt(fr, s.init.value, u);
        if !ok { return; }
        ghost var o1 := Now();
        ok := GenLoop(fr, s, u);
        if ok { AppendJoin(o, StmtCode(fr, s.init.value, u, depth), LoopOf(fr, s, u, depth)); }
      } else {
        ok := GenLoop(fr, s, u);
      }
    }

    /** Everything behind the initialisation. */
    method GenLoop(fr: Frame, s: Stmt, ghost u: Unwind) returns (ok: bool)
      requires s.For? && StmtOk(s, Lens(fr), u.inDefer) && UnwindOk(u, Lens(fr)) && Tracks(u)
      requires u.inDefer ==> JumpsInside(s.loop, true)
      modifies this
      ensures ok == JumpsInside(s.loop, true)
      ensures ok ==>
        Now() == Append(old(Now()), LoopOf(fr, s, u, old(depth))) && depth == old(depth) && scopes == old(scopes)
      decreases Weight(u) + Size(s) - 1, 2
    {
      hide Append, HeadCode, OptCode, StmtCode, LoopCode, Patched, Resolve, LoopOf;
      ghost var o0, d := Now(), depth;
      var top := |code|;
      loops := [LoopRec([], [], |scopes|)] + loops;
      ghost var o := Now();
      GenHead(fr, s.test);
      ok := GenStmt(fr, s.loop, EnterLoop(u));
      if !ok { return; }
      AppendJoin(o, HeadCode(fr, s.test, d), StmtCode(fr, s.loop, EnterLoop(u), d));
      CloseLoop(fr, s, u, top, o0, o);
    }

    /** `continue` comes here, `break` behind it. */
    method CloseLoop(fr: Frame, s: Stmt, ghost u: Unwind, top: nat, ghost o0: Out, ghost o: Out)
      requires s.For? && StmtOk(s, Lens(fr), u.inDefer) && UnwindOk(u, Lens(fr)) && Opened(o0, o) && top == |o.code|
      requires Now() == Append(o, HeadCode(fr, s.test, depth) + StmtCode(fr, s.loop, EnterLoop(u), depth))
      modifies this`code, this`bounds, this`loops, this`depth
      ensures Now() == Append(o0, LoopOf(fr, s, u, old(depth))) && depth == old(depth)
    {
      hide Append, HeadCode, OptCode, StmtCode, LoopCode, Patched, Resolve, LoopOf, Sites;
      ghost var d := depth;
      ghost var hb, next := HeadCode(fr, s.test, d) + StmtCode(fr, s.loop, EnterLoop(u), d), OptCode(fr, s.step, [], d);
      ContPatched(o, hb);
      PatchAll(loops[0].cont);
      loops := [loops[0].(cont := [])] + loops[1..];
      ghost var hb' := Resolve(hb, ToContinue, |hb|);
      assert Now() == Append(o, hb');
      GenOpt(fr, s.step);
      JumpBack(top);
      Append3(o, hb', next, [SymJmp(Rel(-(|hb| + |next| + 1)))]);
      BreakPatched(fr, s, u, d, o0, o);
      PatchAll(loops[0].brk);
      loops := loops[1..];
    }

    method GenHead(fr: Frame, c: Option<Expr>)
      requires OptOk(c, Lens(fr)) && loops != []
      modifies this`code, this`bounds, this`loops, this`depth
      ensures Now() == Append(old(Now()), HeadCode(fr, c, old(depth))) && depth == old(depth)
    {
      hide Append, ExprCode;
      ghost var o := Now();
      AppendNothing(o);
      if c.Some? {
        GenExpr(fr, c.value);
        Emit(TestRax);
        JumpOut(Some(E), true);
        Append3(o, ExprCode(fr, c.value, depth), P(TestRax), [SymJcc(E, ToBreak)]);
        assert ExprCode(fr, c.value, depth) + P(TestRax) + [SymJcc(E, ToBreak)]
            == Branch(ExprCode(fr, c.value, depth), ToBreak);
      }
    }

    /** One statement of an open block; a defer is only registered. */
    method GenItem(fr: Frame, x: Stmt, ghost w: Unwind) returns (ok: bool)
      requires UnwindOk(w, Lens(fr)) && Tracks(w) && scopes != [] && (!x.Defer? ==> StmtOk(x, Lens(fr), w.inDefer))
      requires x.Defer? || w.inDefer ==> JumpsInside(x, w.inLoop)
      modifies this
      ensures ok == JumpsInside(x, w.inLoop)
      ensures ok ==> Now() == Append(old(Now()), ItemCode(fr, x, w, old(depth))) && depth == old(depth)
      ensures ok ==> scopes == if x.Defer? then [[x.d] + old(scopes)[0]] + old(scopes)[1..] else old(scopes)
      decreases Weight(w) + Size(x), 2
    {
      hide Append, StmtCode;
      if x.Defer? {
        AppendNothing(Now());
        scopes := [[x.d] + scopes[0]] + scopes[1..];
        ok := true;
      } else {
        ok := GenStmt(fr, x, w);
      }
    }

    /** The statements of an open block. */
    method GenItems(fr: Frame, b: seq<Stmt>, ghost u: Unwind) returns (ok: bool)
      requires StmtOk(Block(b), Lens(fr), u.inDefer) && UnwindOk(u, Lens(fr)) && scopes != [] && scopes[0] == []
          && Tracked(u, scopes[1..], loops)
      requires u.inDefer ==> JumpsInside(Block(b), u.inLoop)
      modifies this
      ensures ok == JumpsInside(Block(b), u.inLoop)
      ensures ok ==> BlockOk(b, Lens(fr), u.inDefer) && UnwindOk(OpenScope(u), Lens(fr))
      ensures ok ==> Now() == Append(old(Now()), BlockCode(fr, b, OpenScope(u), old(depth)))
      ensures ok ==> depth == old(depth) && scopes == [DefersOf(b)] + old(scopes)[1..]
      decreases Weight(u) + SizeAll(b), 3
    {
      hide Append, BlockCode, PendingCode, StmtCode, UnwindOk, DefersOf, Register, ItemCode, Tracked, StmtOk, OpenScope,
        JumpsInside, BlockOk, Lens, Size, SizeAll, Weight;
      ghost var o, d, l0 := Now(), depth, u.inLoop;
      ghost var done: seq<Sym>, w := [], OpenScope(u);
      AppendNothing(o);
      BlockStart(fr, b, u);
      BlockJumps(b, l0);
      var i: nat := 0;
      while i < |b|
        invariant i <= |b| && depth == d && (loops != []) == (old(loops) != [])
        invariant Weight(w) + SizeAll(b[i..]) <= Weight(u) + 1 + SizeAll(b)
        invariant loops != [] ==> loops[0].depth == old(loops)[0].depth
        invariant BlockOk(b[i..], Lens(fr), u.inDefer) && SizeAll(b[i..]) <= SizeAll(b) && forall j :: 0 <= j < i ==>
          JumpsInside(b[j], l0)
        invariant UnwindOk(w, Lens(fr)) && w == InScope(u, DefersOf(b[..i])) && scopes == [DefersOf(b[..i])]
            + old(scopes)[1..]
        invariant Now() == Append(o, done) && done + BlockCode(fr, b[i..], w, d) == BlockCode(fr, b, OpenScope(u), d)
      {
        ghost var w0 := w;
        BlockNext(fr, b, i, u, w, d, l0);
        TrackedInside(u, DefersOf(b[..i]), old(scopes)[1..], old(loops), loops);
        ok := GenItem(fr, b[i], w);
        if !ok { return; }
        AppendJoin(o, done, ItemCode(fr, b[i], w, d));
        if b[i].Defer? { w := Register(w, b[i].d); }
        ItemDone(done, ItemCode(fr, b[i], w0, d), BlockCode(fr, b[i + 1..], w, d));
        done := done + ItemCode(fr, b[i], w0, d);
        i := i + 1;
      }
      BlockEnd(fr, b, u, w, d);
      assert b[..i] == b && done + [] == done;
      ok := true;
    }

    /** A block opens a scope, registers its defers as it meets them, and runs them at its end. */
    method GenBlock(fr: Frame, b: seq<Stmt>, ghost u: Unwind) returns (ok: bool)
      requires StmtOk(Block(b), Lens(fr), u.inDefer) && UnwindOk(u, Lens(fr)) && Tracks(u)
      requires u.inDefer ==> JumpsInside(Block(b), u.inLoop)
      modifies this
      ensures ok == JumpsInside(Block(b), u.inLoop)
      ensures ok ==> Now() == Append(old(Now()), StmtCode(fr, Block(b), u, old(depth)))
      ensures ok ==> depth == old(depth) && scopes == old(scopes)
      decreases Weight(u) + Size(Block(b)), 0
    {
      hide Append, BlockCode, PendingCode, StmtCode, UnwindOk, DefersOf, JumpsInside, Tracked;
      ghost var o, d := Now(), depth;
      BlockStart(fr, b, u);
      scopes := [[]] + scopes;
      ok := GenItems(fr, b, u);
      if !ok { return; }
      BlockEnd(fr, b, u, OpenScope(u), d);
      RunDefers(fr, scopes[0]);
      scopes := scopes[1..];
      AppendJoin(o, BlockCode(fr, b, OpenScope(u), d), PendingCode(fr, DefersOf(b), d));
    }

    // ----- functions -----

    method JumpRel(s: Sym)
      requires !s.Plain? && LabelOf(s).Rel?
      modifies this`code
      ensures Now() == Append(old(Now()), [s])
    {
      hide Append;
      AppendSym(Now(), s);
      code := code + [RawSym(s)];
    }

    method GenFrame(size: nat)
      modifies this`code, this`depth
      ensures Now() == Append(old(Now()), FrameCode(size)) && depth == old(depth)
    {
      hide Append, P;
      ghost var o := Now();
      PushReg(RBP);
      depth := depth - 1;
      Emit(MovReg(RBP, RSP));
      AppendJoin(o, P(Push(RBP)), P(MovReg(RBP, RSP)));
      ghost var c := P(Push(RBP)) + P(MovReg(RBP, RSP));
      if size != 0 {
        Emit(SubRsp(size));
        Emit(MovReg(R11, RSP));
        Emit(XorZero(R10));
        ghost var o1 := Now();
        Emit(CmpFrame);
        JumpRel(SymJcc(AE, Rel(3)));
        Emit(StoreR11);
        Emit(AddR11);
        JumpRel(SymJmp(Rel(-5)));
        Append5(o1, P(CmpFrame), [SymJcc(AE, Rel(3))], P(StoreR11), P(AddR11), [SymJmp(Rel(-5))]);
        Append5(o, c, P(SubRsp(size)), P(MovReg(R11, RSP)), P(XorZero(R10)), ClearCode());
      }
      FrameSum(size);
    }

    method GenParams(fr: Frame, params: seq<nat>)
      requires |params| <= 6 && forall i :: 0 <= i < |params| ==> params[i] < |fr|
      modifies this`code
      ensures Now() == Append(old(Now()), ParamCode(fr, params, |params|))
    {
      hide Append, P;
      ghost var o := Now();
      AppendNothing(o);
      for i := 0 to |params|
        invariant Now() == Append(o, ParamCode(fr, params, i))
      {
        Emit(StLocal(fr[params[i]].off, CallRegs()[i]));
        AppendJoin(o, ParamCode(fr, params, i), P(StLocal(fr[params[i]].off, CallRegs()[i])));
      }
    }

    /** One function; rejects a `break` or `continue` outside of every loop. */
    method GenFn(f: Fn) returns (ok: bool, addr: nat)
      requires Parsed(f)
      modifies this
      ensures ok == JumpsInside(f.body, false) && addr == |old(code)|
      ensures ok ==> Now() == Append(old(Now()).(loops := []), FnCode(f)) && depth == 0 && scopes == []
    {
      hide Append, FrameCode, ParamCode, StmtCode, StmtOk, FrameOk, JumpsInside, P;
      addr := |code|;
      depth, loops, scopes := 0, [], [];
      ghost var o := Now();
      GenFrame(f.size);
      GenParams(f.fr, f.params);
      ok := GenStmt(f.fr, f.body, OUTERMOST);
      if !ok { return; }
      ghost var c1, c2, c3 := FrameCode(f.size), ParamCode(f.fr, f.params, |f.params|),
          StmtCode(f.fr, f.body, OUTERMOST, 0);
      Append3(o, c1, c2, c3);
      Emit(MovImm(RAX, 0));
      Emit(Leave);
      Emit(Ret);
      Append4(o, c1 + c2 + c3, P(MovImm(RAX, 0)), P(Leave), P(Ret));
      FnSum(f);
    }
  }

  lemma FrameSum(size: nat)
    ensures FrameCode(size) ==
            if size == 0 then P(Push(RBP)) + P(MovReg(RBP, RSP))
            else
              P(Push(RBP)) + P(MovReg(RBP, RSP)) + P(SubRsp(size)) + P(MovReg(R11, RSP)) + P(XorZero(R10)) + ClearCode()
  {}

  lemma FnSum(f: Fn)
    requires Parsed(f)
    ensures FnCode(f) == FrameCode(f.size) + ParamCode(f.fr, f.params, |f.params|)
        + StmtCode(f.fr, f.body, OUTERMOST, 0) + P(MovImm(RAX, 0)) + P(Leave) + P(Ret)
  {
    hide FrameCode, ParamCode, StmtCode, P, MovImm;
  }

  lemma {:induction false} ParamsClosed(fr: Frame, params: seq<nat>, n: nat)
    requires n <= |params| <= 6 && forall i :: 0 <= i < |params| ==> params[i] < |fr|
    ensures Closed(ParamCode(fr, params, n))
    decreases n
  {
    if n > 0 { ParamsClosed(fr, params, n - 1); }
  }

  lemma FnClosed(f: Fn)
    requires FnOk(f)
    ensures Closed(FnCode(f))
  {
    hide StmtCode, ParamCode, Closed, FrameOk, StmtOk, JumpsInside;
    var c1, c2, c3, c4 := FrameCode(f.size), ParamCode(f.fr, f.params, |f.params|),
        StmtCode(f.fr, f.body, OUTERMOST, 0), P(MovImm(RAX, 0)) + (P(Leave) + P(Ret));
    ParamsClosed(f.fr, f.params, |f.params|);
    StmtClosed(f.fr, f.body, OUTERMOST, 0);
    EndsClosed(f.size);
    ClosedJoin(c3, c4);
    ClosedJoin(c2, c3 + c4);
    ClosedJoin(c1, c2 + (c3 + c4));
  }

  lemma EndsClosed(size: nat)
    ensures Closed(FrameCode(size)) && Closed(P(MovImm(RAX, 0)) + (P(Leave) + P(Ret)))
  {}

  /** A piece of the whole code, in place after the panic jumps were patched. */
  lemma PieceAt(all: seq<Sym>, at: nat, c: seq<Sym>, pan: nat)
    requires Closed(all) && at + |c| <= |all| && all[at..at + |c|] == c
    ensures CodeAt(Raw(Resolve(all, ToPanic, pan)), at, c, Targets(0, 0, pan))
  {
    var code := Raw(Resolve(all, ToPanic, pan));
    forall i | 0 <= i < |c|
      ensures code[at + i] == Fix(c[i], at + i, Targets(0, 0, pan))
    {
      assert c[i] == all[at..at + |c|][i] == all[at + i];
    }
  }

  ghost predicate Placed(all: seq<Sym>, at: nat, c: seq<Sym>) { at + |c| <= |all| && all[at..at + |c|] == c }

  lemma PlacedMore(all: seq<Sym>, more: seq<Sym>, at: nat, c: seq<Sym>)
    requires Placed(all, at, c)
    ensures Placed(all + more, at, c)
  {
    assert (all + more)[at..at + |c|] == all[at..at + |c|];
  }

  /** A whole unit: every function's code, and every bounds check sent to the stub that follows. */
  method GenUnit(fs: seq<Fn>) returns (ok: bool, code: seq<Instr>, addrs: seq<nat>, pan: nat)
    requires forall i :: 0 <= i < |fs| ==> Parsed(fs[i])
    ensures ok == forall i :: 0 <= i < |fs| ==> JumpsInside(fs[i].body, false)
    ensures ok ==> |addrs| == |fs| && pan == |code| && forall i :: 0 <= i < |fs| ==>
      CodeAt(code, addrs[i], FnCode(fs[i]), Targets(0, 0, pan))
    ensures ok ==> SparingCode(code)
  {
    hide Sparing, SparingCode, Append, FnCode, Closed, Parsed, JumpsInside, StmtOk, Patched, Sites, Resolve, CodeAt,
        Placed;
    var em := new Emitter();
    code, addrs, pan := [], [], 0;
    ghost var all: seq<Sym> := [];
    ghost var o := em.Now();
    AppendNothing(o);
    NothingClosed();
    Nothing();
    for k := 0 to |fs|
      invariant fresh(em) && |addrs| == k && em.Now() == Append(o, all) && em.loops == [] && o == Out([], [], [])
          && Closed(all) && Sparing(all)
      invariant forall i :: 0 <= i < k ==> JumpsInside(fs[i].body, false) && Placed(all, addrs[i], FnCode(fs[i]))
    {
      ghost var was := all;
      var addr;
      ok, addr := em.GenFn(fs[k]);
      if !ok { return; }
      AppendJoin(o, all, FnCode(fs[k]));
      assert FnOk(fs[k]);
      FnClosed(fs[k]);
      ClosedJoin(all, FnCode(fs[k]));
      FnSparing(fs[k]);
      Both(all, FnCode(fs[k]));
      all := all + FnCode(fs[k]);
      addrs := addrs + [addr];
      forall i | 0 <= i < k
        ensures Placed(all, addrs[i], FnCode(fs[i]))
      {
        PlacedMore(was, FnCode(fs[k]), addrs[i], FnCode(fs[i]));
      }
      PlacedLast(was, FnCode(fs[k]));
    }
    ok := true;
    pan := |em.code|;
    BoundsPatched(all);
    em.PatchAll(em.bounds);
    code := em.code;
    ResolvedSparing(all, pan);
    forall i | 0 <= i < |fs|
      ensures CodeAt(code, addrs[i], FnCode(fs[i]), Targets(0, 0, pan))
    {
      PlacedPiece(all, addrs[i], FnCode(fs[i]), pan);
    }
  }

  lemma ResolvedSparing(all: seq<Sym>, pan: nat)
    requires Sparing(all)
    ensures SparingCode(Raw(Resolve(all, ToPanic, pan)))
  {
    forall i | 0 <= i < |all| ensures Spares(Raw(Resolve(all, ToPanic, pan))[i]) { assert SparesSym(all[i]); }
  }

  lemma NothingClosed()
    ensures Closed([])
  {}

  lemma PlacedLast(all: seq<Sym>, c: seq<Sym>)
    ensures Placed(all + c, |all|, c)
  {}

  lemma PlacedPiece(all: seq<Sym>, at: nat, c: seq<Sym>, pan: nat)
    requires Closed(all) && Placed(all, at, c)
    ensures CodeAt(Raw(Resolve(all, ToPanic, pan)), at, c, Targets(0, 0, pan))
  {
    PieceAt(all, at, c, pan);
  }

  lemma BoundsPatched(all: seq<Sym>)
    ensures var n := Append(Out([], [], []), all);
      Within(n.bounds, |n.code|) && |n.code| == |all| && Patched(n.code, n.bounds, |n.code|)
          == Raw(Resolve(all, ToPanic, |all|))
  {
    hide Patched, Sites, Resolve;
    ResolvePatched([], all, ToPanic, |all|);
    assert [] + Raw(all) == Raw(all) && [] + Sites(all, 0, ToPanic) == Sites(all, 0, ToPanic);
    assert [] + Raw(Resolve(all, ToPanic, |all|)) == Raw(Resolve(all, ToPanic, |all|));
  }
}
