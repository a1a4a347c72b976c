/** `atomic_add` and `atomic_cas` on AArch64: load-exclusive/store-exclusive loops, run by any number
    of threads in any interleaving, with stores that may fail for no reason. */
module Atomics {
  import opened Common
  const WORD: int := 0x1_0000_0000_0000_0000

  /** 64-bit wrap-around. */
  function W(x: int): int { x % WORD }

  type Reg = r: nat | r < 12

  datatype Instr =
    | Ldxr(rt: Reg, rn: Reg)
    | Stxr(rs: Reg, rt: Reg, rn: Reg)   // rs is 0 if the store happened
    | Add(rd: Reg, rn: Reg, rm: Reg)
    | Cmp(rn: Reg, rm: Reg)
    | BNe(rel: int)                     // from this instruction
    | Cbnz(rt: Reg, rel: int)
    | Mov(rd: Reg, rn: Reg)
    | CsetEq(rd: Reg)

  datatype Op = AddOp(p: int, v: int) | CasOp(p: int, expected: int, desired: int)

  // ----- code -----

  function AddCode(): seq<Instr> { [Ldxr(9, 0), Add(10, 9, 1), Stxr(11, 10, 0), Cbnz(11, -3), Mov(0, 9)] }

  function CasCode(): seq<Instr> { [Ldxr(9, 0), Cmp(9, 1), BNe(3), Stxr(10, 2, 0), Cbnz(10, -4), CsetEq(0)] }

  function Code(op: Op): seq<Instr> { if op.AddOp? then AddCode() else CasCode() }

  class Assembler {
    var code: seq<Instr>

    constructor ()
      ensures code == []
    {
      code := [];
    }

    method Emit(i: Instr)
      modifies this
      ensures code == old(code) + [i]
    {
      code := code + [i];
    }

    /** A backward branch to an address already emitted. */
    method CbnzBack(rt: Reg, target: nat)
      modifies this
      ensures code == old(code) + [Cbnz(rt, target - |old(code)|)]
    {
      Emit(Cbnz(rt, target - |code|));
    }

    method JumpNe() returns (at: nat)
      modifies this
      ensures code == old(code) + [BNe(0)] && at == |old(code)|
    {
      at := |code|;
      Emit(BNe(0));
    }

    method PatchHere(at: nat)
      requires at < |code|
      modifies this
      ensures code == old(code)[at := BNe(|old(code)| - at)]
    {
      code := code[at := BNe(|code| - at)];
    }

    /** Pointer, expected and new value are in X0, X1 and X2. */
    method GenAtomicCas()
      modifies this
      ensures code == old(code) + CasCode()
    {
      var top := |code|;
      Emit(Ldxr(9, 0));
      Emit(Cmp(9, 1));
      var done := JumpNe();
      Emit(Stxr(10, 2, 0));
      CbnzBack(10, top);
      PatchHere(done);
      Emit(CsetEq(0));
    }

    method GenAtomicAdd()
      modifies this
      ensures code == old(code) + AddCode()
    {
      var top := |code|;
      Emit(Ldxr(9, 0));
      Emit(Add(10, 9, 1));
      Emit(Stxr(11, 10, 0));
      CbnzBack(11, top);
      Emit(Mov(0, 9));
    }
  }

  // ----- threads -----

  /** What an operation returned; commit is the place of its store in the history, if it stored. The
      history was begun stores long when it started, loaded long at its last load, ended at its end. */
  datatype Result = Result(op: Op, value: int, commit: Option<nat>, begun: nat, loaded: nat, ended: nat)

  /** prog holds the operation being executed and those to come. */
  datatype Thread = Thread(prog: seq<Op>, pc: int, regs: seq<int>, eq: bool, exclusive: Option<int>,
      commit: Option<nat>, begun: nat, loaded: nat, results: seq<Result>)

  /** A store, with the value it replaced. */
  datatype Store = Store(thread: nat, op: Op, before: int, after: int)

  /** Memory and threads; the history of stores and the commits only record what happens. */
  datatype State = State(mem: map<int, int>, threads: seq<Thread>, log: seq<Store>)

  function Read(mem: map<int, int>, a: int): int { if a in mem then mem[a] else 0 }

  /** The arguments of an operation in their registers. */
  function Staged(th: Thread, now: nat): Thread {
    if th.prog == [] || |th.regs| != 12 then th.(pc := 0, commit := None)
    else
      var regs := match th.prog[0]
        case AddOp(p, v) => th.regs[0 := p][1 := v]
        case CasOp(p, e, d) => th.regs[0 := p][1 := e][2 := d];
      th.(pc := 0, regs := regs, commit := None, begun := now)
  }

  /** Every other thread that watches address a loses its reservation. */
  function Lost(threads: seq<Thread>, a: int): (r: seq<Thread>)
    ensures |r| == |threads|
  {
    seq(|threads|, i requires 0 <= i < |threads| => if threads[i].exclusive == Some(a)
        then threads[i].(exclusive := None) else threads[i])
  }

  /** One step of thread t. `fails` makes a store-exclusive fail although it could succeed. */
  function Step(s: State, t: nat, fails: bool): State
    requires t < |s.threads| && |s.threads[t].regs| == 12
  {
    var th := s.threads[t];
    if th.prog == [] then s
    else
      var code := Code(th.prog[0]);
      if !(0 <= th.pc < |code|) then
        // The operation returns the value in X0.
        s.(threads := s.threads[t := Staged(th.(prog := th.prog[1..], results := th.results
            + [Result(th.prog[0], th.regs[0], th.commit, th.begun, th.loaded, |s.log|)]), |s.log|)])
      else
        var next := th.(pc := th.pc + 1);
        match code[th.pc]
        case Ldxr(rt, rn) => s.(threads :=
            s.threads[t := next.(regs := th.regs[rt := Read(s.mem, th.regs[rn])], exclusive := Some(th.regs[rn]),
            loaded := |s.log|)])
        case Stxr(rs, rt, rn) =>
          var a := th.regs[rn];
          if th.exclusive == Some(a) && !fails then
            var done := next.(regs := th.regs[rs := 0], exclusive := None, commit := Some(|s.log|));
            State(s.mem[a := th.regs[rt]], Lost(s.threads, a)[t := done], s.log
                + [Store(t, th.prog[0], Read(s.mem, a), th.regs[rt])])
          else s.(threads := s.threads[t := next.(regs := th.regs[rs := 1], exclusive := None)])
        case Add(rd, rn, rm) => s.(threads :=
            s.threads[t := next.(regs := th.regs[rd := W(th.regs[rn] + th.regs[rm])])])
        case Cmp(rn, rm) => s.(threads := s.threads[t := next.(eq := th.regs[rn] == th.regs[rm])])
        case BNe(rel) => s.(threads := s.threads[t := if th.eq then next else th.(pc := th.pc + rel)])
        case Cbnz(rt, rel) => s.(threads := s.threads[t := if th.regs[rt] != 0 then th.(pc := th.pc + rel) else next])
        case Mov(rd, rn) => s.(threads := s.threads[t := next.(regs := th.regs[rd := th.regs[rn]])])
        case CsetEq(rd) => s.(threads := s.threads[t := next.(regs := th.regs[rd := if th.eq then 1 else 0])])
  }

  datatype Choice = Choice(thread: nat, fails: bool)

  function Threads(progs: seq<seq<Op>>): (ts: seq<Thread>)
    ensures |ts| == |progs|
  {
    seq(|progs|, i requires 0 <= i < |progs| =>
      Staged(Thread(progs[i], 0, seq(12, _ => 0), false, None, None, 0, 0, []), 0))
  }

  function Start(mem: map<int, int>, progs: seq<seq<Op>>): State { State(mem, Threads(progs), []) }

  /** A schedule: which thread moves, and which stores fail. */
  function Run(s: State, schedule: seq<Choice>): State
    decreases |schedule|
  {
    if schedule == [] then s
    else
      var n := |schedule| - 1;
      var r, c := Run(s, schedule[..n]), schedule[n];
      if c.thread < |r.threads| && |r.threads[c.thread].regs| == 12 then Step(r, c.thread, c.fails) else r
  }

  // ----- what holds in every reachable state -----

  /** What a store of the operation puts in place of `before`. */
  function Effect(op: Op, before: int): int {
    match op case AddOp(_, v) => W(before + v) case CasOp(_, _, d) => d
  }

  /** The value at address a after the stores of the history. */
  function Value(init: map<int, int>, log: seq<Store>, a: int): int {
    if log == [] then Read(init, a)
    else if log[|log| - 1].op.p == a then log[|log| - 1].after
    else Value(init, log[..|log| - 1], a)
  }

  /** Store i replaced the value then in memory by the operation's effect; a swap found what it expected. */
  ghost predicate StoreOk(init: map<int, int>, log: seq<Store>, i: nat)
    requires i < |log|
  {
    var c := log[i];
    c.before == Value(init, log[..i], c.op.p) && c.after == Effect(c.op, c.before)
        && (c.op.CasOp? ==> c.before == c.op.expected)
  }

  /** The stores of thread t, in order. */
  function Mine(log: seq<Store>, t: nat): seq<nat> {
    if log == [] then []
    else
      var n := |log| - 1;
      Mine(log[..n], t) + (if log[n].thread == t then [n] else [])
  }

  function Commits(rs: seq<Result>): seq<nat> {
    if rs == [] then []
    else
      var n := |rs| - 1;
      Commits(rs[..n]) + (if rs[n].commit.Some? then [rs[n].commit.value] else [])
  }

  /** An addition stored once and returned the value it replaced; a swap returned whether it stored,
      and if it did not, another value was there at a moment between its start and its end. */
  ghost predicate ResultOk(init: map<int, int>, log: seq<Store>, r: Result) {
    && r.begun <= r.ended <= |log|
    && (r.commit.Some? ==> r.begun <= r.commit.value < r.ended && log[r.commit.value].op == r.op)
    && match r.op
       case AddOp(_, _) => r.commit.Some? && r.value == log[r.commit.value].before
       case CasOp(p, e, _) =>
         && r.value == (if r.commit.Some? then 1 else 0)
         && (r.commit.None? ==> r.begun <= r.loaded <= r.ended && Value(init, log[..r.loaded], p) != e)
  }

  function Pending(th: Thread): seq<nat> { if th.commit.Some? then [th.commit.value] else [] }

  /** Where a thread stands in its operation. */
  ghost predicate AtOp(init: map<int, int>, mem: map<int, int>, log: seq<Store>, th: Thread) {
    && |th.regs| == 12 && th.begun <= |log| && (th.prog == [] ==> th.commit.None?)
    && (th.prog != [] ==> InOp(init, mem, log, th, th.prog[0]))
  }

  ghost predicate InOp(init: map<int, int>, mem: map<int, int>, log: seq<Store>, th: Thread, op: Op)
    requires |th.regs| == 12
  {
    && (th.commit.Some? ==> th.begun <= th.commit.value < |log| && log[th.commit.value].op == op)
    && (th.pc > 0 ==> th.begun <= th.loaded <= |log| && th.regs[9] == Value(init, log[..th.loaded], op.p))
    && (th.exclusive.Some? && th.pc > 0 ==> th.exclusive.value == op.p && th.regs[9] == Read(mem, op.p))
    && match op
       case AddOp(p, v) => InAdd(log, th, p, v)
       case CasOp(p, e, d) => InCas(th, p, e, d)
  }

  ghost predicate InAdd(log: seq<Store>, th: Thread, p: int, v: int)
    requires |th.regs| == 12 && (th.commit.Some? ==> th.commit.value < |log|)
  {
    && 0 <= th.pc <= 5 && th.regs[1] == v && (th.pc < 5 ==> th.regs[0] == p)
    && (th.pc == 2 ==> th.regs[10] == W(th.regs[9] + v))
    && (th.commit.Some? <==> th.pc >= 4 || (th.pc == 3 && th.regs[11] == 0))
    && (th.commit.Some? && th.pc < 5 ==> th.regs[9] == log[th.commit.value].before)
    && (th.pc == 5 ==> th.regs[0] == log[th.commit.value].before)
  }

  ghost predicate InCas(th: Thread, p: int, e: int, d: int)
    requires |th.regs| == 12
  {
    && 0 <= th.pc <= 6 && th.regs[1] == e && th.regs[2] == d && (th.pc < 6 ==> th.regs[0] == p)
    && (th.pc >= 2 ==> (th.eq <==> th.regs[9] == e))
    && (3 <= th.pc <= 4 ==> th.eq)
    && (th.commit.Some? <==> (th.pc == 4 && th.regs[10] == 0) || (th.pc >= 5 && th.eq))
    && (th.pc == 6 ==> th.regs[0] == if th.eq then 1 else 0)
  }

  ghost predicate ThreadOk(init: map<int, int>, mem: map<int, int>, log: seq<Store>, th: Thread, t: nat) {
    && AtOp(init, mem, log, th)
    && (forall i :: 0 <= i < |th.results| ==> ResultOk(init, log, th.results[i]))
    && Mine(log, t) == Commits(th.results) + Pending(th)
  }

  /** The history explains memory, and every thread's stores are those of its operations, once each. */
  ghost predicate Inv(init: map<int, int>, s: State) {
    && (forall a :: Read(s.mem, a) == Value(init, s.log, a))
    && (forall i :: 0 <= i < |s.log| ==> StoreOk(init, s.log, i))
    && forall t :: 0 <= t < |s.threads| ==> ThreadOk(init, s.mem, s.log, s.threads[t], t)
  }

  // ----- one step -----

  /** A longer history says the same about the past. */
  lemma ResultStays(init: map<int, int>, log: seq<Store>, x: Store, r: Result)
    requires ResultOk(init, log, r)
    ensures ResultOk(init, log + [x], r)
  {
    if r.loaded <= |log| { assert (log + [x])[..r.loaded] == log[..r.loaded]; }
  }

  lemma MineMore(log: seq<Store>, x: Store, t: nat)
    ensures Mine(log + [x], t) == Mine(log, t) + (if x.thread == t then [|log|] else [])
  {
    assert (log + [x])[..|log|] == log;
  }

  lemma ValueMore(init: map<int, int>, log: seq<Store>, x: Store, a: int)
    ensures Value(init, log + [x], a) == if x.op.p == a then x.after else Value(init, log, a)
  {
    assert (log + [x])[..|log|] == log;
  }

  /** A thread that another thread's store overtakes. */
  lemma OvertakenOk(init: map<int, int>, mem: map<int, int>, log: seq<Store>, th: Thread, i: nat, x: Store, a: int)
    requires ThreadOk(init, mem, log, th, i) && x.thread != i && x.op.p == a
    ensures ThreadOk(init, mem[a := x.after], log + [x], if th.exclusive == Some(a) then th.(exclusive := None)
        else th, i)
  {
    hide AtOp, ResultOk, Mine, Commits;
    var th' := if th.exclusive == Some(a) then th.(exclusive := None) else th;
    MineMore(log, x, i);
    OvertakenInOp(init, mem, log, th, x, a);
    forall k | 0 <= k < |th'.results|
      ensures ResultOk(init, log + [x], th'.results[k])
    {
      ResultStays(init, log, x, th.results[k]);
    }
  }

  lemma OvertakenInOp(init: map<int, int>, mem: map<int, int>, log: seq<Store>, th: Thread, x: Store, a: int)
    requires AtOp(init, mem, log, th) && x.op.p == a
    ensures AtOp(init, mem[a := x.after], log + [x], if th.exclusive == Some(a) then th.(exclusive := None) else th)
  {
    if th.prog != [] && th.pc > 0 { assert (log + [x])[..th.loaded] == log[..th.loaded]; }
  }

  /** A step that stores nothing: only thread t can be affected. */
  lemma LocalStep(init: map<int, int>, s: State, t: nat, th: Thread)
    requires Inv(init, s) && t < |s.threads| && th.results == s.threads[t].results && th.commit == s.threads[t].commit
        && AtOp(init, s.mem, s.log, th)
    ensures Inv(init, s.(threads := s.threads[t := th]))
  {
    assert ThreadOk(init, s.mem, s.log, s.threads[t], t);
    assert ThreadOk(init, s.mem, s.log, th, t);
  }

  /** The operation's value is returned and the next one staged. */
  lemma ReturnStep(init: map<int, int>, s: State, t: nat)
    requires Inv(init, s) && t < |s.threads| && s.threads[t].prog != []
        && s.threads[t].pc == |Code(s.threads[t].prog[0])|
    ensures |s.threads[t].regs| == 12 && Inv(init, Step(s, t, false))
  {
    hide ResultOk, AtOp, Mine, Commits, StoreOk, Value;
    var th := s.threads[t];
    assert ThreadOk(init, s.mem, s.log, th, t);
    ReturnResult(init, s.mem, s.log, th);
    var r := Result(th.prog[0], th.regs[0], th.commit, th.begun, th.loaded, |s.log|);
    var th' := Staged(th.(prog := th.prog[1..], results := th.results + [r]), |s.log|);
    CommitsMore(th.results, r);
    assert ThreadOk(init, s.mem, s.log, th', t);
  }

  lemma CommitsMore(rs: seq<Result>, r: Result)
    ensures Commits(rs + [r]) == Commits(rs) + (if r.commit.Some? then [r.commit.value] else [])
  {
    assert (rs + [r])[..|rs|] == rs;
  }

  lemma ReturnResult(init: map<int, int>, mem: map<int, int>, log: seq<Store>, th: Thread)
    requires AtOp(init, mem, log, th) && th.prog != [] && th.pc == |Code(th.prog[0])|
    ensures |th.regs| == 12
    ensures var r := Result(th.prog[0], th.regs[0], th.commit, th.begun, th.loaded, |log|);
      ResultOk(init, log, r) && AtOp(init, mem, log,
          Staged(th.(prog := th.prog[1..], results := th.results + [r]), |log|))
  {}

  /** A successful store. */
  lemma StoreStep(init: map<int, int>, s: State, t: nat)
    requires Inv(init, s) && t < |s.threads| && s.threads[t].prog != []
        && 0 <= s.threads[t].pc < |Code(s.threads[t].prog[0])|
    requires var th := s.threads[t];
      Code(th.prog[0])[th.pc].Stxr? && |th.regs| == 12 && th.exclusive == Some(th.regs[0])
    ensures Inv(init, Step(s, t, false))
  {
    hide Value, ResultOk, Mine, Commits;
    var th := s.threads[t];
    assert ThreadOk(init, s.mem, s.log, th, t);
    var op := th.prog[0];
    var Stxr(rs, rt, rn) := Code(op)[th.pc];
    var a := op.p;
    var x := Store(t, op, Read(s.mem, a), th.regs[rt]);
    var log' := s.log + [x];
    var s' := Step(s, t, false);
    assert x.after == Effect(op, x.before);
    forall b ensures Read(s'.mem, b) == Value(init, log', b) { ValueMore(init, s.log, x, b); }
    forall i | 0 <= i < |log'| ensures StoreOk(init, log', i) {
      if i < |s.log| { assert StoreOk(init, s.log, i); assert log'[..i] == s.log[..i]; }
          else { assert log'[..i] == s.log; }
    }
    forall i | 0 <= i < |s'.threads| ensures ThreadOk(init, s'.mem, log', s'.threads[i], i) {
      if i != t {
        assert ThreadOk(init, s.mem, s.log, s.threads[i], i);
        OvertakenOk(init, s.mem, s.log, s.threads[i], i, x, a);
      } else {
        StorerOk(init, s.mem, s.log, th, t, x, rs);
      }
    }
  }

  /** The thread that stored. */
  lemma StorerOk(init: map<int, int>, mem: map<int, int>, log: seq<Store>, th: Thread, t: nat, x: Store, rs: Reg)
    requires ThreadOk(init, mem, log, th, t) && th.prog != [] && th.exclusive == Some(th.prog[0].p)
    requires if th.prog[0].AddOp? then th.pc == 2 && rs == 11 else th.pc == 3 && rs == 10
    requires x.thread == t && x.op == th.prog[0] && x.before == Read(mem, th.prog[0].p)
    ensures ThreadOk(init, mem[x.op.p := x.after], log
        + [x], th.(pc := th.pc + 1, regs := th.regs[rs := 0], exclusive := None, commit := Some(|log|)), t)
  {
    MineMore(log, x, t);
    forall k | 0 <= k < |th.results|
      ensures ResultOk(init, log + [x], th.results[k])
    {
      ResultStays(init, log, x, th.results[k]);
    }
    assert (log + [x])[..th.loaded] == log[..th.loaded];
  }

  lemma StepKeeps(init: map<int, int>, s: State, t: nat, fails: bool)
    requires Inv(init, s) && t < |s.threads| && |s.threads[t].regs| == 12
    ensures Inv(init, Step(s, t, fails))
  {
    var th := s.threads[t];
    assert ThreadOk(init, s.mem, s.log, th, t);
    if th.prog != [] {
      var code := Code(th.prog[0]);
      if !(0 <= th.pc < |code|) {
        ReturnStep(init, s, t);
      } else if code[th.pc].Stxr? && th.exclusive == Some(th.regs[0]) && !fails {
        StoreStep(init, s, t);
      } else {
        LocalOk(init, s, t, fails);
        LocalStep(init, s, t, Step(s, t, fails).threads[t]);
      }
    }
  }

  lemma LocalOk(init: map<int, int>, s: State, t: nat, fails: bool)
    requires Inv(init, s) && t < |s.threads| && |s.threads[t].regs| == 12 && s.threads[t].prog != []
        && 0 <= s.threads[t].pc < |Code(s.threads[t].prog[0])|
    requires var th := s.threads[t]; !(Code(th.prog[0])[th.pc].Stxr? && th.exclusive == Some(th.regs[0]) && !fails)
    ensures var s' := Step(s, t, fails);
      && s' == s.(threads := s.threads[t := s'.threads[t]]) && s'.threads[t].results == s.threads[t].results
          && s'.threads[t].commit == s.threads[t].commit
      && AtOp(init, s.mem, s.log, s'.threads[t])
  {
    hide Value, ResultOk, StoreOk, Mine, Commits;
    var th := s.threads[t];
    assert ThreadOk(init, s.mem, s.log, th, t);
    assert s.log[..|s.log|] == s.log;
    assert Read(s.mem, th.prog[0].p) == Value(init, s.log, th.prog[0].p);
    hide Inv, ThreadOk, Read;
    if th.prog[0].AddOp? { InAddStays(init, s, t, fails); } else { InCasStays(init, s, t, fails); }
  }

  lemma InAddStays(init: map<int, int>, s: State, t: nat, fails: bool)
    requires t < |s.threads| && AtOp(init, s.mem, s.log, s.threads[t])
    requires var th := s.threads[t];
      && th.prog != [] && th.prog[0].AddOp? && 0 <= th.pc < 5
      && !(Code(th.prog[0])[th.pc].Stxr? && th.exclusive == Some(th.regs[0]) && !fails)
      && s.log[..|s.log|] == s.log && Read(s.mem, th.prog[0].p) == Value(init, s.log, th.prog[0].p)
    ensures var s' := Step(s, t, fails);
      && s' == s.(threads := s.threads[t := s'.threads[t]]) && s'.threads[t].results == s.threads[t].results
          && s'.threads[t].commit == s.threads[t].commit
      && AtOp(init, s.mem, s.log, s'.threads[t])
  {
    hide Value, Read;
  }

  lemma InCasStays(init: map<int, int>, s: State, t: nat, fails: bool)
    requires t < |s.threads| && AtOp(init, s.mem, s.log, s.threads[t])
    requires var th := s.threads[t];
      && th.prog != [] && th.prog[0].CasOp? && 0 <= th.pc < 6
      && !(Code(th.prog[0])[th.pc].Stxr? && th.exclusive == Some(th.regs[0]) && !fails)
      && s.log[..|s.log|] == s.log && Read(s.mem, th.prog[0].p) == Value(init, s.log, th.prog[0].p)
    ensures var s' := Step(s, t, fails);
      && s' == s.(threads := s.threads[t := s'.threads[t]]) && s'.threads[t].results == s.threads[t].results
          && s'.threads[t].commit == s.threads[t].commit
      && AtOp(init, s.mem, s.log, s'.threads[t])
  {
    hide Value, Read;
  }

  // ----- every run -----

  lemma {:induction false} RunKeeps(mem: map<int, int>, progs: seq<seq<Op>>, schedule: seq<Choice>)
    ensures Inv(mem, Run(Start(mem, progs), schedule))
    decreases |schedule|
  {
    if schedule != [] {
      var n := |schedule| - 1;
      RunKeeps(mem, progs, schedule[..n]);
      var r, c := Run(Start(mem, progs), schedule[..n]), schedule[n];
      if c.thread < |r.threads| && |r.threads[c.thread].regs| == 12 { StepKeeps(mem, r, c.thread, c.fails); }
    } else {
      forall t | 0 <= t < |progs| ensures ThreadOk(mem, mem, [], Threads(progs)[t], t) {}
    }
  }

  /** The sum of what the stores at address a added. */
  function Added(log: seq<Store>, a: int): int {
    if log == [] then 0
    else
      var n := |log| - 1;
      Added(log[..n], a) + (if log[n].op.p == a && log[n].op.AddOp? then log[n].op.v else 0)
  }

  /** Nothing was swapped at address a. */
  predicate OnlyAdds(log: seq<Store>, a: int) { forall i :: 0 <= i < |log| ==> log[i].op.p == a ==> log[i].op.AddOp? }

  lemma {:induction false} SumOfAdds(init: map<int, int>, log: seq<Store>, a: int)
    requires (forall i :: 0 <= i < |log| ==> StoreOk(init, log, i)) && OnlyAdds(log, a)
    requires 0 <= Read(init, a) < WORD
    ensures Value(init, log, a) == W(Read(init, a) + Added(log, a))
    decreases |log|
  {
    if log != [] {
      var n := |log| - 1;
      forall i | 0 <= i < n ensures StoreOk(init, log[..n], i) {
        assert StoreOk(init, log, i);
        assert log[..n][..i] == log[..i];
      }
      SumOfAdds(init, log[..n], a);
      assert StoreOk(init, log, n);
      WAdd(Read(init, a) + Added(log[..n], a), if log[n].op.AddOp? then log[n].op.v else 0);
    }
  }

  lemma WAdd(x: int, y: int)
    ensures W(W(x) + y) == W(x + y)
  {}

  /** In any run of any programs: memory is what the history of stores makes of it, every store is an
      addition to the value it replaced or a swap of the value expected there; every addition that
      has returned stored exactly once and returned the value it replaced; every swap that has
      returned says truly whether it stored. */
  lemma AtomicRuns(mem: map<int, int>, progs: seq<seq<Op>>, schedule: seq<Choice>, a: int)
    ensures var s := Run(Start(mem, progs), schedule);
      && Read(s.mem, a) == Value(mem, s.log, a)
      && (forall i :: 0 <= i < |s.log| ==> StoreOk(mem, s.log, i))
      && (forall t, i :: 0 <= t < |s.threads| && 0 <= i < |s.threads[t].results| ==>
            ResultOk(mem, s.log, s.threads[t].results[i]))
      && (forall t :: 0 <= t < |s.threads| ==> Mine(s.log, t) == Commits(s.threads[t].results) + Pending(s.threads[t]))
  {
    RunKeeps(mem, progs, schedule);
    var s := Run(Start(mem, progs), schedule);
    forall t | 0 <= t < |s.threads| ensures ThreadOk(mem, s.mem, s.log, s.threads[t], t) {}
  }

  /** A counter that is only added to never loses an update. */
  lemma CounterSum(mem: map<int, int>, progs: seq<seq<Op>>, schedule: seq<Choice>, a: int)
    requires 0 <= Read(mem, a) < WORD
    requires OnlyAdds(Run(Start(mem, progs), schedule).log, a)
    ensures var s := Run(Start(mem, progs), schedule); Read(s.mem, a) == W(Read(mem, a) + Added(s.log, a))
  {
    hide Run, Start, StoreOk, Value, ThreadOk, Read, OnlyAdds;
    var s := Run(Start(mem, progs), schedule);
    RunKeeps(mem, progs, schedule);
    SumOfAdds(mem, s.log, a);
  }

  // ----- progress -----

  /** Thread t alone for n steps, with no store failing that could succeed. */
  function Alone(t: nat, n: nat): (c: seq<Choice>)
    ensures |c| == n
  {
    seq(n, _ => Choice(t, false))
  }

  lemma {:induction false} RunJoin(s: State, a: seq<Choice>, b: seq<Choice>)
    ensures Run(s, a + b) == Run(Run(s, a), b)
    decreases |b|
  {
    hide Step;
    if b == [] {
      assert a + b == a;
    } else {
      var n := |b| - 1;
      assert (a + b)[..|a + b| - 1] == a + b[..n];
      RunJoin(s, a, b[..n]);
    }
  }

  lemma AloneJoin(s: State, schedule: seq<Choice>, t: nat, a: nat, b: nat)
    ensures Run(s, schedule + Alone(t, a) + Alone(t, b)) == Run(s, schedule + Alone(t, a + b))
  {
    assert schedule + Alone(t, a) + Alone(t, b) == schedule + Alone(t, a + b);
  }

  /** The first step, then the rest. */
  lemma AloneStep(s: State, t: nat, n: nat)
    requires t < |s.threads| && |s.threads[t].regs| == 12
    ensures Run(s, Alone(t, n + 1)) == Run(Step(s, t, false), Alone(t, n))
  {
    hide Step;
    var first := Alone(t, 1);
    assert first[..0] == [] && Run(s, first[..0]) == s;
    assert Run(s, first) == Step(s, t, false);
    assert first + Alone(t, n) == Alone(t, n + 1);
    RunJoin(s, first, Alone(t, n));
  }

  /** The operation has its arguments and has done nothing yet. */
  predicate Fresh(th: Thread) { th == Staged(th, th.begun) }

  /** An upper bound for the steps to the operation's return. */
  function Left(th: Thread): nat
    requires th.prog != [] && |th.regs| == 12
  {
    var watched := th.exclusive == Some(th.regs[0]);
    if th.prog[0].AddOp? then
      if th.pc == 0 then 6
      else if th.pc == 1 then (if watched then 5 else 9)
      else if th.pc == 2 then (if watched then 4 else 8)
      else if th.pc == 3 then (if th.regs[11] == 0 then 3 else 7)
      else if th.pc == 4 then 2
      else 1
    else
      if th.pc == 0 then 7
      else if th.pc == 1 then (if th.regs[9] != th.regs[1] then 4 else if watched then 6 else 11)
      else if th.pc == 2 then (if !th.eq then 3 else if watched then 5 else 10)
      else if th.pc == 3 then (if watched then 4 else 9)
      else if th.pc == 4 then (if th.regs[10] == 0 then 3 else 8)
      else if th.pc == 5 then 2
      else 1
  }

  /** What one step of thread t, which was th, brings when it runs alone: it returns, or has less left. */
  ghost predicate Moved(th: Thread, s': State, t: nat)
    requires th.prog != [] && |th.regs| == 12
  {
    && t < |s'.threads|
    && var th' := s'.threads[t];
       if Left(th) == 1 then Fresh(th') && th'.prog == th.prog[1..] && Returned(th, th')
       else th'.prog == th.prog && th'.results == th.results && |th'.regs| == 12 && Left(th') < Left(th)
  }

  lemma Nearer(init: map<int, int>, s: State, t: nat)
    requires Inv(init, s) && t < |s.threads| && s.threads[t].prog != []
    ensures |s.threads[t].regs| == 12
    ensures Moved(s.threads[t], Step(s, t, false), t)
  {
    hide ResultOk, StoreOk, Value, Mine, Commits, Read, Step, Moved;
    var th := s.threads[t];
    assert ThreadOk(init, s.mem, s.log, th, t);
    if th.prog[0].AddOp? { NearerAdd(s, t); } else { NearerCas(s, t); }
  }

  /** One more operation has returned. */
  ghost predicate Returned(th: Thread, th': Thread)
    requires th.prog != []
  {
    |th'.results| == |th.results| + 1 && th'.results[..|th.results|] == th.results
    && th'.results[|th.results|].op == th.prog[0]
  }

  lemma NearerAdd(s: State, t: nat)
    requires t < |s.threads| && s.threads[t].prog != [] && s.threads[t].prog[0].AddOp?
    requires |s.threads[t].regs| == 12 && 0 <= s.threads[t].pc <= 5
    ensures Moved(s.threads[t], Step(s, t, false), t)
  {
    hide Step, Moved;
    if s.threads[t].pc == 2 {
      AddStores(s, t);
    } else if s.threads[t].pc < 4 {
      AddMoves(s, t);
    } else {
      AddEnds(s, t);
    }
  }

  lemma AddStores(s: State, t: nat)
    requires t < |s.threads| && s.threads[t].prog != [] && s.threads[t].prog[0].AddOp?
    requires |s.threads[t].regs| == 12 && s.threads[t].pc == 2
    ensures Moved(s.threads[t], Step(s, t, false), t)
  {
    hide Read, Lost, Fresh;
  }

  lemma AddMoves(s: State, t: nat)
    requires t < |s.threads| && s.threads[t].prog != [] && s.threads[t].prog[0].AddOp?
    requires |s.threads[t].regs| == 12 && s.threads[t].pc in {0, 1, 3}
    ensures Moved(s.threads[t], Step(s, t, false), t)
  {
    hide Read, Lost, Fresh, W;
  }

  lemma AddEnds(s: State, t: nat)
    requires t < |s.threads| && s.threads[t].prog != [] && s.threads[t].prog[0].AddOp?
    requires |s.threads[t].regs| == 12 && 4 <= s.threads[t].pc <= 5
    ensures Moved(s.threads[t], Step(s, t, false), t)
  {
    hide Read, Lost;
  }

  lemma NearerCas(s: State, t: nat)
    requires t < |s.threads| && s.threads[t].prog != [] && s.threads[t].prog[0].CasOp?
    requires |s.threads[t].regs| == 12 && 0 <= s.threads[t].pc <= 6
    ensures Moved(s.threads[t], Step(s, t, false), t)
  {
    hide Step, Moved;
    if s.threads[t].pc == 3 {
      CasStores(s, t);
    } else if s.threads[t].pc < 5 {
      CasMoves(s, t);
    } else {
      CasEnds(s, t);
    }
  }

  lemma CasStores(s: State, t: nat)
    requires t < |s.threads| && s.threads[t].prog != [] && s.threads[t].prog[0].CasOp?
    requires |s.threads[t].regs| == 12 && s.threads[t].pc == 3
    ensures Moved(s.threads[t], Step(s, t, false), t)
  {
    hide Read, Lost, Fresh;
  }

  lemma CasMoves(s: State, t: nat)
    requires t < |s.threads| && s.threads[t].prog != [] && s.threads[t].prog[0].CasOp?
    requires |s.threads[t].regs| == 12 && s.threads[t].pc in {0, 1, 2, 4}
    ensures Moved(s.threads[t], Step(s, t, false), t)
  {
    hide Read, Lost, Fresh;
  }

  lemma CasEnds(s: State, t: nat)
    requires t < |s.threads| && s.threads[t].prog != [] && s.threads[t].prog[0].CasOp?
    requires |s.threads[t].regs| == 12 && 5 <= s.threads[t].pc <= 6
    ensures Moved(s.threads[t], Step(s, t, false), t)
  {
    hide Read, Lost;
  }

  /** From anywhere in an operation, its return is at most eleven steps away. */
  lemma {:induction false} FinishWithin(init: map<int, int>, s: State, t: nat) returns (n: nat)
    requires Inv(init, s) && t < |s.threads| && s.threads[t].prog != []
    ensures |s.threads[t].regs| == 12 && 1 <= n <= Left(s.threads[t]) <= 11
    ensures var s' := Run(s, Alone(t, n));
      && |s'.threads| == |s.threads| && Fresh(s'.threads[t]) && s'.threads[t].prog == s.threads[t].prog[1..]
      && Returned(s.threads[t], s'.threads[t])
    decreases Left(s.threads[t])
  {
    hide Inv, Step, Run, Fresh, Left, Returned;
    Nearer(init, s, t);
    LeftBound(s.threads[t]);
    var s1 := Step(s, t, false);
    StepKeeps(init, s, t, false);
    if Left(s.threads[t]) == 1 {
      n := 1;
      AloneStep(s, t, 0);
      RunNothing(s1, t);
    } else {
      var k := FinishWithin(init, s1, t);
      n := k + 1;
      AloneStep(s, t, k);
      SameReturn(s.threads[t], s1.threads[t], Run(s1, Alone(t, k)).threads[t]);
    }
    SameThreads(s, Alone(t, n));
  }

  lemma SameReturn(a: Thread, b: Thread, c: Thread)
    requires a.prog != [] && a.prog == b.prog && a.results == b.results && Returned(b, c)
    ensures Returned(a, c)
  {}

  lemma LeftBound(th: Thread)
    requires th.prog != [] && |th.regs| == 12
    ensures 1 <= Left(th) <= 11
  {}

  lemma RunNothing(s: State, t: nat)
    ensures Run(s, Alone(t, 0)) == s
  {}

  lemma {:induction false} SameThreads(s: State, schedule: seq<Choice>)
    ensures |Run(s, schedule).threads| == |s.threads|
    decreases |schedule|
  {
    if schedule != [] { SameThreads(s, schedule[..|schedule| - 1]); }
  }

  /** In any reachable state, a thread that runs alone returns from its operation within eleven steps, and
      then stands at the start of its next one. */
  lemma Progress(mem: map<int, int>, progs: seq<seq<Op>>, schedule: seq<Choice>, t: nat) returns (n: nat)
    requires t < |Run(Start(mem, progs), schedule).threads|
    requires Run(Start(mem, progs), schedule).threads[t].prog != []
    ensures 1 <= n <= 11
    ensures var th, s' := Run(Start(mem, progs), schedule).threads[t], Run(Start(mem, progs), schedule + Alone(t, n));
      && t < |s'.threads|
      && var th' := s'.threads[t]; Fresh(th') && th'.prog == th.prog[1..] && Returned(th, th')
  {
    hide Run, Start, Inv, Left, Fresh;
    var s := Run(Start(mem, progs), schedule);
    RunKeeps(mem, progs, schedule);
    n := FinishWithin(mem, s, t);
    RunJoin(Start(mem, progs), schedule, Alone(t, n));
  }

  /** So it returns from all of its operations. */
  lemma {:induction false} Completion(mem: map<int, int>, progs: seq<seq<Op>>, schedule: seq<Choice>, t: nat)
      returns (n: nat)
    requires t < |Run(Start(mem, progs), schedule).threads|
    ensures var th, s' := Run(Start(mem, progs), schedule).threads[t], Run(Start(mem, progs), schedule + Alone(t, n));
      && n <= 11 * |th.prog| && t < |s'.threads| && s'.threads[t].prog == []
      && |s'.threads[t].results| == |th.results| + |th.prog|
    decreases |Run(Start(mem, progs), schedule).threads[t].prog|
  {
    hide Run, Start, Fresh;
    if Run(Start(mem, progs), schedule).threads[t].prog == [] {
      n := 0;
      assert schedule + Alone(t, 0) == schedule;
    } else {
      var a := Progress(mem, progs, schedule, t);
      var b := Completion(mem, progs, schedule + Alone(t, a), t);
      AloneJoin(Start(mem, progs), schedule, t, a, b);
      n := a + b;
    }
  }

  /** The last result of thread t in s' is v, for the operation it was in in s, and memory is mem. */
  ghost predicate Gave(s: State, s': State, t: nat, v: int, mem: map<int, int>)
    requires t < |s.threads| && s.threads[t].prog != []
  {
    && |s'.threads| == |s.threads| && Returned(s.threads[t], s'.threads[t])
    && s'.threads[t].results[|s.threads[t].results|].value == v && s'.mem == mem
  }

  /** A swap that runs alone from its start returns whether it found what it expected; if so, it leaves the
      new value there, and otherwise everything as it was. */
  lemma SwapAlone(mem: map<int, int>, progs: seq<seq<Op>>, schedule: seq<Choice>, t: nat, p: int, e: int, d: int)
      returns (n: nat)
    requires t < |Run(Start(mem, progs), schedule).threads|
    requires var th := Run(Start(mem, progs), schedule).threads[t];
      Fresh(th) && th.prog != [] && th.prog[0] == CasOp(p, e, d)
    ensures var s, s' := Run(Start(mem, progs), schedule), Run(Start(mem, progs), schedule + Alone(t, n));
      var found := Read(s.mem, p) == e;
      Gave(s, s', t, if found then 1 else 0, if found then s.mem[p := d] else s.mem)
  {
    hide Run, Start, Inv, Read, Gave;
    var s := Run(Start(mem, progs), schedule);
    RunKeeps(mem, progs, schedule);
    ThreadRegs(mem, s, t);
    hide Fresh;
    n := if Read(s.mem, p) == e then 7 else 5;
    SwapSteps(s, t, p, e, d);
    RunJoin(Start(mem, progs), schedule, Alone(t, n));
  }

  lemma ThreadRegs(init: map<int, int>, s: State, t: nat)
    requires Inv(init, s) && t < |s.threads|
    ensures |s.threads[t].regs| == 12
  {
    assert ThreadOk(init, s.mem, s.log, s.threads[t], t);
  }

  lemma SwapSteps(s: State, t: nat, p: int, e: int, d: int)
    requires t < |s.threads| && |s.threads[t].regs| == 12 && Fresh(s.threads[t])
    requires s.threads[t].prog != [] && s.threads[t].prog[0] == CasOp(p, e, d)
    ensures var found := Read(s.mem, p) == e;
      Gave(s, Run(s, Alone(t, if found then 7 else 5)), t, if found then 1 else 0,
        if found then s.mem[p := d] else s.mem)
  {
    hide Run, Read, Step, Fresh;
    if Read(s.mem, p) == e {
      var s3 := SwapHead(s, t, p, e, d, 4);
      SwapStores(s3, t, p, d);
    } else {
      var s3 := SwapHead(s, t, p, e, d, 2);
      SwapLeaves(s3, t);
    }
  }

  /** Load, compare, branch. */
  lemma SwapHead(s: State, t: nat, p: int, e: int, d: int, n: nat) returns (k: State)
    requires t < |s.threads| && |s.threads[t].regs| == 12 && Fresh(s.threads[t])
    requires s.threads[t].prog != [] && s.threads[t].prog[0] == CasOp(p, e, d)
    ensures Run(s, Alone(t, n + 3)) == Run(k, Alone(t, n)) && |k.threads| == |s.threads| && k.mem == s.mem
    ensures var th, th' := s.threads[t], k.threads[t];
      && th'.prog == th.prog && th'.results == th.results && |th'.regs| == 12 && th'.exclusive == Some(p)
      && th'.regs[0] == p && th'.regs[2] == d
      && th'.eq == (Read(s.mem, p) == e) && th'.pc == if th'.eq then 3 else 5
  {
    hide Run, Read, Lost;
    var s1 := Step(s, t, false);
    var s2 := Step(s1, t, false);
    k := Step(s2, t, false);
    AloneStep(s, t, n + 2);
    AloneStep(s1, t, n + 1);
    AloneStep(s2, t, n);
  }

  lemma SwapStores(s: State, t: nat, p: int, d: int)
    requires t < |s.threads| && s.threads[t].prog != [] && s.threads[t].prog[0].CasOp?
    requires var th := s.threads[t];
      |th.regs| == 12 && th.exclusive == Some(p) && th.regs[0] == p && th.regs[2] == d && th.eq && th.pc == 3
    ensures Gave(s, Run(s, Alone(t, 4)), t, 1, s.mem[p := d])
  {
    hide Run, Read, Lost;
    var s4 := Step(s, t, false);
    var s5 := Step(s4, t, false);
    var s6 := Step(s5, t, false);
    AloneStep(s, t, 3);
    AloneStep(s4, t, 2);
    AloneStep(s5, t, 1);
    AloneStep(s6, t, 0);
    RunNothing(Step(s6, t, false), t);
  }

  lemma SwapLeaves(s: State, t: nat)
    requires t < |s.threads| && s.threads[t].prog != [] && s.threads[t].prog[0].CasOp?
    requires var th := s.threads[t]; |th.regs| == 12 && !th.eq && th.pc == 5
    ensures Gave(s, Run(s, Alone(t, 2)), t, 0, s.mem)
  {
    hide Run, Read, Lost;
    var s6 := Step(s, t, false);
    AloneStep(s, t, 1);
    AloneStep(s6, t, 0);
    RunNothing(Step(s6, t, false), t);
  }

  /** An addition that runs alone from its start returns what it found, and leaves that plus its operand. */
  lemma AddAlone(mem: map<int, int>, progs: seq<seq<Op>>, schedule: seq<Choice>, t: nat, p: int, v: int)
      returns (n: nat)
    requires t < |Run(Start(mem, progs), schedule).threads|
    requires var th := Run(Start(mem, progs), schedule).threads[t];
      Fresh(th) && th.prog != [] && th.prog[0] == AddOp(p, v)
    ensures var s, s' := Run(Start(mem, progs), schedule), Run(Start(mem, progs), schedule + Alone(t, n));
      Gave(s, s', t, Read(s.mem, p), s.mem[p := (Read(s.mem, p) + v) % 0x1_0000_0000_0000_0000])
  {
    hide Run, Start, Inv, Read, Gave;
    var s := Run(Start(mem, progs), schedule);
    RunKeeps(mem, progs, schedule);
    ThreadRegs(mem, s, t);
    hide Fresh;
    n := 6;
    AddSteps(s, t, p, v);
    RunJoin(Start(mem, progs), schedule, Alone(t, n));
  }

  lemma AddSteps(s: State, t: nat, p: int, v: int)
    requires t < |s.threads| && |s.threads[t].regs| == 12 && Fresh(s.threads[t])
    requires s.threads[t].prog != [] && s.threads[t].prog[0] == AddOp(p, v)
    ensures Gave(s, Run(s, Alone(t, 6)), t, Read(s.mem, p), s.mem[p := W(Read(s.mem, p) + v)])
  {
    hide Run, Read, Step, Fresh, W;
    var s3 := AddHead(s, t, p, v);
    AddTail(s3, t);
  }

  /** Load, add, store. */
  lemma AddHead(s: State, t: nat, p: int, v: int) returns (k: State)
    requires t < |s.threads| && |s.threads[t].regs| == 12 && Fresh(s.threads[t])
    requires s.threads[t].prog != [] && s.threads[t].prog[0] == AddOp(p, v)
    ensures Run(s, Alone(t, 6)) == Run(k, Alone(t, 3)) && |k.threads| == |s.threads|
    ensures k.mem == s.mem[p := W(Read(s.mem, p) + v)]
    ensures var th, th' := s.threads[t], k.threads[t];
      && th'.prog == th.prog && th'.results == th.results && |th'.regs| == 12 && th'.pc == 3
      && th'.regs[9] == Read(s.mem, p) && th'.regs[11] == 0
  {
    hide Run, Read, Lost, W;
    var s1 := Step(s, t, false);
    var s2 := Step(s1, t, false);
    k := Step(s2, t, false);
    AloneStep(s, t, 5);
    AloneStep(s1, t, 4);
    AloneStep(s2, t, 3);
  }

  /** The branch falls through, and the loaded value is returned. */
  lemma AddTail(s: State, t: nat)
    requires t < |s.threads| && s.threads[t].prog != [] && s.threads[t].prog[0].AddOp?
    requires |s.threads[t].regs| == 12 && s.threads[t].pc == 3 && s.threads[t].regs[11] == 0
    ensures Gave(s, Run(s, Alone(t, 3)), t, s.threads[t].regs[9], s.mem)
  {
    hide Run, Read, Lost;
    var s4 := Step(s, t, false);
    var s5 := Step(s4, t, false);
    AloneStep(s, t, 2);
    AloneStep(s4, t, 1);
    AloneStep(s5, t, 0);
    RunNothing(Step(s5, t, false), t);
  }
}
