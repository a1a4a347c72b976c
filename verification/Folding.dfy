/** The constant folder: what it makes of an expression, and when that means the same. */
module Folding {
  import opened Common
  import opened Bits
  import Source

  datatype Type = I8 | I16 | I32 | Word | U8 | U16 | U32 | Bool

  /** Operators with two operands; the last two evaluate the right one only if they have to. */
  datatype Op = Arith(op: Source.BinOp, unsigned: bool) | AndAlso | OrElse

  datatype UnOp = Neg | BitNot | Not | Cast(ty: Type)

  /** Assign, Comma and Call stand for the nodes that are never folded themselves. */
  datatype Expr =
    | Num(v: I64)
    | Var(x: nat)
    | Un(uop: UnOp, l: Expr)
    | Bin(op: Op, l: Expr, r: Expr)
    | Assign(x: nat, l: Expr)
    | Comma(l: Expr, r: Expr)
    | Call(l: Expr)

  // ----- meaning -----

  datatype State = State(vars: map<nat, I64>, calls: seq<I64>)

  datatype Result = Val(v: I64, st: State) | Trap(st: State)

  type World = (I64, State) -> I64

  function Get(st: State, x: nat): I64 { if x in st.vars then st.vars[x] else 0 }

  /** Reduction to a type's width, as stored and read back. */
  function Trunc(v: I64, t: Type): I64 {
    match t
    case I8 => Signed(v % 0x100, 0x80)
    case I16 => Signed(v % 0x1_0000, 0x8000)
    case I32 => Signed(v % 0x1_0000_0000, 0x8000_0000)
    case U8 => v % 0x100
    case U16 => v % 0x1_0000
    case U32 => v % 0x1_0000_0000
    case Bool => v % 0x100
    case Word => v
  }

  function Signed(x: int, half: int): int { if x >= half then x - 2 * half else x }

  /** The one number in the type's range that differs from v by a multiple of the type's size. */
  lemma TruncIs(v: I64)
    ensures var r := Trunc(v, I8); -0x80 <= r < 0x80 && (v - r) % 0x100 == 0
    ensures var r := Trunc(v, I16); -0x8000 <= r < 0x8000 && (v - r) % 0x1_0000 == 0
    ensures var r := Trunc(v, I32); -0x8000_0000 <= r < 0x8000_0000 && (v - r) % 0x1_0000_0000 == 0
    ensures var r := Trunc(v, U8); 0 <= r < 0x100 && (v - r) % 0x100 == 0
    ensures var r := Trunc(v, U16); 0 <= r < 0x1_0000 && (v - r) % 0x1_0000 == 0
    ensures var r := Trunc(v, U32); 0 <= r < 0x1_0000_0000 && (v - r) % 0x1_0000_0000 == 0
    ensures Trunc(v, Word) == v && Trunc(v, Bool) == Trunc(v, U8)
  {
    hide Signed;
    Trunc8(v);
    Trunc16(v);
    Trunc32(v);
  }

  lemma Trunc8(v: I64)
    ensures var r := Trunc(v, I8); -0x80 <= r < 0x80 && (v - r) % 0x100 == 0
    ensures var r := Trunc(v, U8); 0 <= r < 0x100 && (v - r) % 0x100 == 0
  {
    assert v == 0x100 * (v / 0x100) + v % 0x100;
  }

  lemma Trunc16(v: I64)
    ensures var r := Trunc(v, I16); -0x8000 <= r < 0x8000 && (v - r) % 0x1_0000 == 0
    ensures var r := Trunc(v, U16); 0 <= r < 0x1_0000 && (v - r) % 0x1_0000 == 0
  {
    assert v == 0x1_0000 * (v / 0x1_0000) + v % 0x1_0000;
  }

  lemma Trunc32(v: I64)
    ensures var r := Trunc(v, I32); -0x8000_0000 <= r < 0x8000_0000 && (v - r) % 0x1_0000_0000 == 0
    ensures var r := Trunc(v, U32); 0 <= r < 0x1_0000_0000 && (v - r) % 0x1_0000_0000 == 0
  {
    assert v == 0x1_0000_0000 * (v / 0x1_0000_0000) + v % 0x1_0000_0000;
  }

  function Unary(op: UnOp, v: I64): I64 {
    match op
    case Neg => Source.Minus(v)
    case BitNot => Source.Complement(v)
    case Not => Source.Truth(v == 0)
    case Cast(Bool) => Source.Truth(v != 0)
    case Cast(t) => Trunc(v, t)
  }

  /** What the generated code computes for unsigned operands, kept in signed words. */
  function ApplyUnsigned(op: Source.BinOp, a: I64, b: I64): Option<I64> {
    var ua, ub := Source.Unsigned(a), Source.Unsigned(b);
    match op
    case Div => if b == 0 then None else Some(Wrap(ua / ub))
    case Mod => if b == 0 then None else Some(Wrap(ua % ub))
    case ShiftRight => Some(Wrap(ua / Pow2(b % 64)))
    case Lt => Some(Source.Truth(ua < ub))
    case Le => Some(Source.Truth(ua <= ub))
    case _ => Source.Apply(op, a, b)
  }

  function Compute(op: Op, a: I64, b: I64): Option<I64>
    requires op.Arith?
  {
    if op.unsigned then ApplyUnsigned(op.op, a, b) else Source.Apply(op.op, a, b)
  }

  function Eval(o: World, e: Expr, st: State): Result {
    match e
    case Num(v) => Val(v, st)
    case Var(x) => Val(Get(st, x), st)
    case Un(op, l) => (
      match Eval(o, l, st)
      case Trap(s) => Trap(s)
      case Val(v, s) => Val(Unary(op, v), s))
    case Bin(Arith(op, unsigned), l, r) => (
      match Eval(o, r, st)
      case Trap(s) => Trap(s)
      case Val(vr, s) =>
        match Eval(o, l, s)
        case Trap(s2) => Trap(s2)
        case Val(vl, s2) => if Compute(e.op, vl, vr).None? then Trap(s2) else Val(Compute(e.op, vl, vr).value, s2))
    case Bin(op, l, r) => (
      match Eval(o, l, st)
      case Trap(s) => Trap(s)
      case Val(v, s) =>
        if (v == 0) == op.AndAlso? then Val(Source.Truth(op.OrElse?), s)
        else
          match Eval(o, r, s)
          case Trap(s2) => Trap(s2)
          case Val(w, s2) => Val(Source.Truth(w != 0), s2))
    case Assign(x, l) => (
      match Eval(o, l, st)
      case Trap(s) => Trap(s)
      case Val(v, s) => Val(v, s.(vars := s.vars[x := v])))
    case Comma(l, r) => (
      match Eval(o, l, st)
      case Trap(s) => Trap(s)
      case Val(_, s) => Eval(o, r, s))
    case Call(l) => (
      match Eval(o, l, st)
      case Trap(s) => Trap(s)
      case Val(v, s) => Val(o(v, s), s.(calls := s.calls + [v])))
  }

  // ----- folding -----

  /** Rejected is the diagnostic for a constant division by zero; Undefined an operation that the
      folder's own arithmetic does not define. */
  datatype Folded = Ok(e: Expr) | Rejected | Undefined

  /** A shift by less than 0 or more than 63, or the one quotient that does not fit. */
  predicate NoMeaning(op: Source.BinOp, a: I64, b: I64) {
    ((op.ShiftLeft? || op.ShiftRight?) && !(0 <= b < 64))
        || ((op.Div? || op.Mod?) && a == -0x8000_0000_0000_0000 && b == -1)
  }

  function FoldArith(op: Source.BinOp, a: I64, b: I64): Folded {
    if (op.Div? || op.Mod?) && b == 0 then Rejected
    else if NoMeaning(op, a, b) then Undefined
    else Ok(Num(Source.Apply(op, a, b).value))
  }

  /** The constant that decides && or ||. */
  predicate Decides(op: Op, v: I64) { (op.AndAlso? && v == 0) || (op.OrElse? && v != 0) }

  /** One node whose operands have been folded. */
  function FoldTwo(op: Op, l: Expr, r: Expr): Folded {
    if op.Arith? then if l.Num? && r.Num? then FoldArith(op.op, l.v, r.v) else Ok(Bin(op, l, r))
    else if l.Num? && r.Num? then
      Ok(Num(Source.Truth(if op.AndAlso? then l.v != 0 && r.v != 0 else l.v != 0 || r.v != 0)))
    else if r.Num? && Decides(op, r.v) then Ok(Num(Source.Truth(op.OrElse?)))
    else Ok(Bin(op, l, r))
  }

  function Size(e: Expr): nat {
    match e
    case Num(_) => 1
    case Var(_) => 1
    case Un(_, l) => 1 + Size(l)
    case Bin(_, l, r) => 1 + Size(l) + Size(r)
    case Assign(_, l) => 1 + Size(l)
    case Comma(l, r) => 1 + Size(l) + Size(r)
    case Call(l) => 1 + Size(l)
  }

  /** The left side first; if it decides, the right side is not looked at. */
  function Fold(e: Expr): (f: Folded)
    ensures f.Ok? ==> Size(f.e) <= Size(e)
  {
    match e
    case Un(op, l) => (
      match Fold(l)
      case Ok(Num(v)) => Ok(Num(Unary(op, v)))
      case Ok(l') => Ok(Un(op, l'))
      case bad => bad)
    case Bin(op, l, r) => (
      match Fold(l)
      case Ok(l') =>
        if l'.Num? && Decides(op, l'.v) then Ok(Num(Source.Truth(op.OrElse?)))
        else (
          match Fold(r)
          case Ok(r') => FoldTwo(op, l', r')
          case bad => bad)
      case bad => bad)
    case _ => Ok(e)
  }

  /** Folds a node, then everything below it that is still there. */
  function FoldAll(e: Expr): (f: Folded)
    ensures f.Ok? ==> Size(f.e) <= Size(e)
    decreases Size(e), 1
  {
    match Fold(e)
    case Ok(e') => FoldBelow(e')
    case bad => bad
  }

  function FoldBelow(e: Expr): (f: Folded)
    ensures f.Ok? ==> Size(f.e) <= Size(e)
    decreases Size(e), 0
  {
    match e
    case Num(_) => Ok(e)
    case Var(_) => Ok(e)
    case Un(op, l) => (match FoldAll(l) case Ok(l') => Ok(Un(op, l')) case bad => bad)
    case Bin(op, l, r) => (
      match FoldAll(l)
      case Ok(l') => (match FoldAll(r) case Ok(r') => Ok(Bin(op, l', r')) case bad => bad)
      case bad => bad)
    case Assign(x, l) => (match FoldAll(l) case Ok(l') => Ok(Assign(x, l')) case bad => bad)
    case Comma(l, r) => (
      match FoldAll(l)
      case Ok(l') => (match FoldAll(r) case Ok(r') => Ok(Comma(l', r')) case bad => bad)
      case bad => bad)
    case Call(l) => (match FoldAll(l) case Ok(l') => Ok(Call(l')) case bad => bad)
  }

  // ----- idempotence -----

  lemma {:induction false} FoldTwice(e: Expr)
    requires Fold(e).Ok?
    ensures Fold(Fold(e).e) == Fold(e)
    decreases e
  {
    match e
    case Un(op, l) => FoldTwice(l);
    case Bin(op, l, r) =>
      FoldTwice(l);
      var l' := Fold(l).e;
      if !(l'.Num? && Decides(op, l'.v)) { FoldTwice(r); }
    case _ =>
  }

  /** Nothing is left to fold. */
  predicate Done(e: Expr) {
    Fold(e) == Ok(e) &&
    match e
    case Un(_, l) => Done(l)
    case Bin(_, l, r) => Done(l) && Done(r)
    case Assign(_, l) => Done(l)
    case Comma(l, r) => Done(l) && Done(r)
    case Call(l) => Done(l)
    case _ => true
  }

  lemma {:induction false} DoneStays(e: Expr)
    requires Done(e)
    ensures FoldAll(e) == Ok(e)
    decreases e
  {
    match e
    case Un(_, l) => DoneStays(l);
    case Bin(_, l, r) => DoneStays(l); DoneStays(r);
    case Assign(_, l) => DoneStays(l);
    case Comma(l, r) => DoneStays(l); DoneStays(r);
    case Call(l) => DoneStays(l);
    case _ =>
  }

  lemma {:induction false} FoldAllDone(e: Expr)
    requires FoldAll(e).Ok?
    ensures Done(FoldAll(e).e)
    decreases Size(e), 1
  {
    FoldTwice(e);
    FoldBelowDone(Fold(e).e);
  }

  lemma {:induction false} FoldBelowDone(e: Expr)
    requires Fold(e) == Ok(e) && FoldBelow(e).Ok?
    ensures var d := FoldBelow(e).e; Done(d) && d.Num? == e.Num? && (e.Num? ==> d == e)
    decreases Size(e), 0
  {
    match e
    case Un(op, l) => FoldBelowDone(l);
    case Bin(op, l, r) => FoldBelowDone(l); FoldBelowDone(r);
    case Assign(_, l) => FoldAllDone(l);
    case Comma(l, r) => FoldAllDone(l); FoldAllDone(r);
    case Call(l) => FoldAllDone(l);
    case _ =>
  }

  /** No operator has only constants left, and no constant decides an && or ||. */
  predicate Irreducible(e: Expr) {
    match e
    case Un(_, l) => !l.Num? && Irreducible(l)
    case Bin(op, l, r) =>
      && Irreducible(l) && Irreducible(r) && !(l.Num? && r.Num?)
      && (op.AndAlso? ==> l != Num(0) && r != Num(0))
      && (op.OrElse? ==> !(l.Num? && l.v != 0) && !(r.Num? && r.v != 0))
    case Assign(_, l) => Irreducible(l)
    case Comma(l, r) => Irreducible(l) && Irreducible(r)
    case Call(l) => Irreducible(l)
    case _ => true
  }

  lemma {:induction false} DoneIrreducible(e: Expr)
    requires Done(e)
    ensures Irreducible(e)
    decreases e
  {
    match e
    case Un(_, l) => DoneIrreducible(l);
    case Bin(_, l, r) => DoneIrreducible(l); DoneIrreducible(r);
    case Assign(_, l) => DoneIrreducible(l);
    case Comma(l, r) => DoneIrreducible(l); DoneIrreducible(r);
    case Call(l) => DoneIrreducible(l);
    case _ =>
  }

  /** Everything that can be folded is. */
  lemma NothingLeft(e: Expr)
    requires FoldAll(e).Ok?
    ensures Irreducible(FoldAll(e).e)
  {
    FoldAllDone(e);
    DoneIrreducible(FoldAll(e).e);
  }

  /** Folding again changes nothing. */
  lemma Idempotent(e: Expr)
    requires FoldAll(e).Ok?
    ensures FoldAll(FoldAll(e).e) == FoldAll(e)
  {
    FoldAllDone(e);
    DoneStays(FoldAll(e).e);
  }

  // ----- the same meaning -----

  /** No effect and no trap. */
  predicate Quiet(e: Expr) {
    match e
    case Num(_) => true
    case Var(_) => true
    case Un(_, l) => Quiet(l)
    case Bin(op, l, r) => Quiet(l) && Quiet(r) && !(op.Arith? && (op.op.Div? || op.op.Mod?) && !(r.Num? && r.v > 0))
    case Comma(l, r) => Quiet(l) && Quiet(r)
    case _ => false
  }

  lemma {:induction false} QuietRuns(o: World, e: Expr, st: State)
    requires Quiet(e)
    ensures Eval(o, e, st).Val? && Eval(o, e, st).st == st
    decreases e
  {
    match e
    case Un(_, l) => QuietRuns(o, l, st);
    case Bin(_, l, r) => QuietRuns(o, l, st); QuietRuns(o, r, st);
    case Comma(l, r) => QuietRuns(o, l, st); QuietRuns(o, r, st);
    case _ =>
  }

  predicate DecidingConstant(op: Op, e: Expr) {
    !op.Arith? && Fold(e).Ok? && Fold(e).e.Num? && Decides(op, Fold(e).e.v)
  }

  /** Whether signed folding of two constants gives what unsigned operands need. */
  predicate SignBlind(op: Source.BinOp, a: I64, b: I64) {
    match op
    case Lt => (a < 0) == (b < 0)
    case Le => (a < 0) == (b < 0)
    case ShiftRight => a >= 0 || b == 0
    case Div => if a >= 0 then b > 0 || a + b < 0 else b == 1 || a == b
    case Mod =>
      if a >= 0 then b > 0 || a + b < 0 else a == b || (b > 0 && a % b == 0 && 0x1_0000_0000_0000_0000 % b == 0)
    case _ => true
  }

  function Constant(e: Expr): Option<I64> { if Fold(e).Ok? && Fold(e).e.Num? then Some(Fold(e).e.v) else None }

  /** Where a constant on the right decides, the left side can be dropped; where unsigned constants are
      folded, signs do not matter. */
  predicate Sides(e: Expr) {
    match e
    case Un(_, l) => Sides(l)
    case Bin(op, l, r) =>
      && Sides(l) && Sides(r) && (DecidingConstant(op, r) ==> Quiet(l))
      && (op.Arith? && op.unsigned && Constant(l).Some? && Constant(r).Some?
          ==> SignBlind(op.op, Constant(l).value, Constant(r).value))
    case Assign(_, l) => Sides(l)
    case Comma(l, r) => Sides(l) && Sides(r)
    case Call(l) => Sides(l)
    case _ => true
  }

  ghost predicate Same(e: Expr, e': Expr) { forall o: World, st: State :: Eval(o, e, st) == Eval(o, e', st) }

  lemma DropAt(o: World, op: Op, l: Expr, c: I64, st: State)
    requires !op.Arith? && Decides(op, c)
    ensures Eval(o, Num(Source.Truth(op.OrElse?)), st) == Eval(o, Bin(op, l, Num(c)), st) <==>
      Eval(o, l, st).Val? && Eval(o, l, st).st == st
  {}

  /** A call is made whenever e is evaluated to its end. */
  predicate Calls(e: Expr) {
    match e
    case Call(_) => true
    case Un(_, l) => Calls(l)
    case Assign(_, l) => Calls(l)
    case Comma(l, r) => Calls(l) || Calls(r)
    case Bin(op, l, r) => Calls(l) || (op.Arith? && Calls(r))
    case _ => false
  }

  predicate Assigns(e: Expr, x: nat) {
    match e
    case Assign(y, l) => y == x || Assigns(l, x)
    case Un(_, l) => Assigns(l, x)
    case Comma(l, r) => Assigns(l, x) || Assigns(r, x)
    case Bin(_, l, r) => Assigns(l, x) || Assigns(r, x)
    case Call(l) => Assigns(l, x)
    case _ => false
  }

  /** The last thing stored in x is the constant c, whenever e is evaluated to its end. */
  predicate Stores(e: Expr, x: nat, c: I64) {
    match e
    case Assign(y, l) => if y == x then l == Num(c) else Stores(l, x, c)
    case Un(_, l) => Stores(l, x, c)
    case Comma(l, r) => Stores(r, x, c) || (Stores(l, x, c) && !Assigns(r, x))
    case Bin(op, l, r) =>
      if op.Arith? then Stores(l, x, c) || (Stores(r, x, c) && !Assigns(l, x)) else Stores(l, x, c) && !Assigns(r, x)
    case Call(l) => Stores(l, x, c)
    case _ => false
  }

  /** The evaluation of e always gets to a division by x as it was at the start. */
  predicate Divides(e: Expr, x: nat) {
    match e
    case Bin(op, l, r) =>
      if op.Arith? then Divides(r, x) || (!Assigns(r, x) && Divides(l, x))
          || ((op.op.Div? || op.op.Mod?) && r == Var(x))
      else Divides(l, x)
    case Un(_, l) => Divides(l, x)
    case Assign(_, l) => Divides(l, x)
    case Comma(l, r) => Divides(l, x) || (!Assigns(l, x) && Divides(r, x))
    case Call(l) => Divides(l, x)
    case _ => false
  }

  lemma {:induction false} CallsGrow(o: World, e: Expr, st: State)
    requires Eval(o, e, st).Val?
    ensures |Eval(o, e, st).st.calls| >= |st.calls| && (Calls(e) ==> |Eval(o, e, st).st.calls| > |st.calls|)
    decreases e
  {
    hide Compute, Unary;
    match e
    case Un(_, l) => CallsGrow(o, l, st);
    case Bin(op, l, r) =>
      var first, second := (if op.Arith? then r else l), (if op.Arith? then l else r);
      CallsGrow(o, first, st);
      var s := Eval(o, first, st).st;
      if Eval(o, second, s).Val? { CallsGrow(o, second, s); }
    case Assign(_, l) => CallsGrow(o, l, st);
    case Comma(l, r) => CallsGrow(o, l, st); CallsGrow(o, r, Eval(o, l, st).st);
    case Call(l) => CallsGrow(o, l, st);
    case _ =>
  }

  lemma {:induction false} NotAssigned(o: World, e: Expr, st: State, x: nat)
    requires !Assigns(e, x)
    ensures Get(Eval(o, e, st).st, x) == Get(st, x)
    decreases e
  {
    hide Compute, Unary;
    match e
    case Un(_, l) => NotAssigned(o, l, st, x);
    case Bin(op, l, r) =>
      var first, second := (if op.Arith? then r else l), (if op.Arith? then l else r);
      NotAssigned(o, first, st, x);
      NotAssigned(o, second, Eval(o, first, st).st, x);
    case Assign(_, l) => NotAssigned(o, l, st, x);
    case Comma(l, r) => NotAssigned(o, l, st, x); NotAssigned(o, r, Eval(o, l, st).st, x);
    case Call(l) => NotAssigned(o, l, st, x);
    case _ =>
  }

  lemma {:induction false} StoresLast(o: World, e: Expr, st: State, x: nat, c: I64)
    requires Stores(e, x, c) && Eval(o, e, st).Val?
    ensures Get(Eval(o, e, st).st, x) == c
    decreases e
  {
    hide Compute, Unary;
    match e
    case Un(_, l) => StoresLast(o, l, st, x, c);
    case Bin(op, l, r) =>
      var first, second := (if op.Arith? then r else l), (if op.Arith? then l else r);
      var s := Eval(o, first, st).st;
      if op.Arith? && Stores(second, x, c) {
        StoresLast(o, second, s, x, c);
      } else {
        StoresLast(o, first, st, x, c);
        NotAssigned(o, second, s, x);
      }
    case Assign(y, l) => if y != x { StoresLast(o, l, st, x, c); }
    case Comma(l, r) =>
      if Stores(r, x, c) {
        StoresLast(o, r, Eval(o, l, st).st, x, c);
      } else {
        StoresLast(o, l, st, x, c);
        NotAssigned(o, r, Eval(o, l, st).st, x);
      }
    case Call(l) => StoresLast(o, l, st, x, c);
    case _ =>
  }

  lemma {:induction false} DividesTraps(o: World, e: Expr, st: State, x: nat)
    requires Divides(e, x) && Get(st, x) == 0
    ensures Eval(o, e, st).Trap?
    decreases e
  {
    hide Unary, SignBlind;
    match e
    case Un(_, l) => DividesTraps(o, l, st, x);
    case Bin(op, l, r) =>
      if op.Arith? {
        if Divides(r, x) {
          DividesTraps(o, r, st, x);
        } else if !Assigns(r, x) && Divides(l, x) {
          NotAssigned(o, r, st, x);
          DividesTraps(o, l, Eval(o, r, st).st, x);
        }
      } else {
        DividesTraps(o, l, st, x);
      }
    case Assign(_, l) => DividesTraps(o, l, st, x);
    case Comma(l, r) =>
      if Divides(l, x) {
        DividesTraps(o, l, st, x);
      } else {
        NotAssigned(o, l, st, x);
        DividesTraps(o, r, Eval(o, l, st).st, x);
      }
    case Call(l) => DividesTraps(o, l, st, x);
    case _ =>
  }

  /** e always calls, or always stores c in x, or always divides by x. */
  predicate Loud(e: Expr, x: nat, c: I64) { Calls(e) || Stores(e, x, c) || Divides(e, x) }

  /** A state in which that shows. */
  lemma LoudShows(o: World, e: Expr, x: nat, c: I64) returns (st: State)
    requires Loud(e, x, c)
    ensures !(Eval(o, e, st).Val? && Eval(o, e, st).st == st)
  {
    hide Eval;
    if Divides(e, x) {
      st := State(map[], []);
      DividesTraps(o, e, st, x);
    } else {
      st := State(map[x := if c == 0 then 1 else 0], []);
      if Eval(o, e, st).Val? {
        CallsGrow(o, e, st);
        if Stores(e, x, c) { StoresLast(o, e, st, x, c); }
      }
    }
  }

  /** The folder drops the left side of `l && 0` and `l || 1`, whatever it is. For an l that is quiet,
      or always does something that shows, this is right exactly when l is quiet. */
  lemma DropIff(op: Op, l: Expr, c: I64, x: nat, v: I64)
    requires !op.Arith? && Decides(op, c) && Fold(l).Ok? && (Quiet(l) || Loud(l, x, v))
    ensures var e := Bin(op, l, Num(c));
      Fold(e) == Ok(Num(Source.Truth(op.OrElse?))) && (Same(Fold(e).e, e) <==> Quiet(l))
  {
    hide Loud, Quiet;
    var a, e := Num(Source.Truth(op.OrElse?)), Bin(op, l, Num(c));
    assert Fold(e) == Ok(a);
    if Quiet(l) {
      forall o: World, st: State ensures Eval(o, a, st) == Eval(o, e, st) {
        QuietRuns(o, l, st);
        DropAt(o, op, l, c, st);
      }
    } else {
      var o: World := (_, _) => 0;
      var st := LoudShows(o, l, x, v);
      DropAt(o, op, l, c, st);
    }
  }

  /** `(x = 1) && 0` is folded to 0 and no longer stores 1. */
  lemma DropsStore(o: World, st: State)
    requires Get(st, 0) != 1
    ensures var e := Bin(AndAlso, Assign(0, Num(1)), Num(0));
      Fold(e) == Ok(Num(0)) && Eval(o, e, st).Val? && Get(Eval(o, e, st).st, 0) == 1
          && Get(Eval(o, Num(0), st).st, 0) != 1
  {
    assert Eval(o, Num(1), st) == Val(1, st);
    assert Eval(o, Assign(0, Num(1)), st) == Val(1, st.(vars := st.vars[0 := 1]));
  }

  lemma {:induction false} FoldSound(o: World, e: Expr, st: State)
    requires Sides(e) && Fold(e).Ok?
    ensures Eval(o, Fold(e).e, st) == Eval(o, e, st)
    decreases e
  {
    match e
    case Un(op, l) => FoldSound(o, l, st);
    case Bin(op, l, r) => FoldBinSound(o, op, l, r, st);
    case _ =>
  }

  lemma {:induction false} FoldBinSound(o: World, op: Op, l: Expr, r: Expr, st: State)
    requires Sides(Bin(op, l, r)) && Fold(Bin(op, l, r)).Ok?
    ensures Eval(o, Fold(Bin(op, l, r)).e, st) == Eval(o, Bin(op, l, r), st)
    decreases Bin(op, l, r), 0
  {
    hide Source.Apply, ApplyUnsigned, SignBlind, NoMeaning;
    FoldBinParts(op, l, r);
    if op.Arith? {
      FoldSound(o, r, st);
      var q := Eval(o, r, st);
      if q.Val? { FoldSound(o, l, q.st); }
      TwoArith(o, op, l, r, Fold(l).e, Fold(r).e, st);
    } else {
      FoldSound(o, l, st);
      if !DecidingConstant(op, l) {
        var q := Eval(o, l, st);
        if q.Val? { FoldSound(o, r, q.st); }
        if DecidingConstant(op, r) { QuietRuns(o, l, st); FoldSound(o, r, st); }
        TwoLogic(o, op, l, r, Fold(l).e, Fold(r).e, st);
      }
    }
  }

  lemma FoldBinParts(op: Op, l: Expr, r: Expr)
    requires Fold(Bin(op, l, r)).Ok?
    ensures Fold(l).Ok?
    ensures if DecidingConstant(op, l) then Fold(Bin(op, l, r)) == Ok(Num(Source.Truth(op.OrElse?))) && Fold(l).e.Num?
            else Fold(r).Ok? && Fold(Bin(op, l, r)) == FoldTwo(op, Fold(l).e, Fold(r).e)
  {}

  lemma TwoArith(o: World, op: Op, l: Expr, r: Expr, l': Expr, r': Expr, st: State)
    requires op.Arith? && FoldTwo(op, l', r').Ok? && Eval(o, r', st) == Eval(o, r, st)
    requires Eval(o, r, st).Val? ==> Eval(o, l', Eval(o, r, st).st) == Eval(o, l, Eval(o, r, st).st)
    requires op.unsigned && l'.Num? && r'.Num? ==> SignBlind(op.op, l'.v, r'.v)
    ensures Eval(o, FoldTwo(op, l', r').e, st) == Eval(o, Bin(op, l, r), st)
  {
    hide Source.Apply, ApplyUnsigned, SignBlind, NoMeaning;
    if l'.Num? && r'.Num? { FoldedNumber(op.op, l'.v, r'.v); }
    if op.unsigned && l'.Num? && r'.Num? { UnsignedIff(op.op, l'.v, r'.v); }
    if l'.Num? && r'.Num? { assert Eval(o, r', st) == Val(r'.v, st) && Eval(o, l', st) == Val(l'.v, st); }
  }

  lemma FoldedNumber(op: Source.BinOp, a: I64, b: I64)
    requires FoldArith(op, a, b).Ok?
    ensures FoldArith(op, a, b).e.Num? && Source.Apply(op, a, b) == Some(FoldArith(op, a, b).e.v)
  {}

  // ----- unsigned operands -----

  /** The largest unsigned number divided by 2 is folded to 0. */
  lemma UnsignedHalf(o: World, st: State)
    ensures var e := Bin(Arith(Source.Div, true), Num(-1), Num(2));
      Fold(e) == Ok(Num(0)) && Eval(o, e, st) == Val(0x7FFF_FFFF_FFFF_FFFF, st)
  {
    assert Eval(o, Num(-1), st) == Val(-1, st) && Eval(o, Num(2), st) == Val(2, st);
    assert Fold(Num(-1)) == Ok(Num(-1)) && Fold(Num(2)) == Ok(Num(2));
  }

  /** Five divided by that half is 0, but the folder finds a division by zero. */
  lemma UnsignedRejected(o: World, st: State)
    ensures var e := Bin(Arith(Source.Div, true), Num(5), Bin(Arith(Source.Div, true), Num(-1), Num(2)));
      FoldAll(e) == Rejected && Eval(o, e, st) == Val(0, st)
  {
    UnsignedHalf(o, st);
    assert Eval(o, Num(5), st) == Val(5, st) && Fold(Num(5)) == Ok(Num(5));
  }

  const WORD: int := 0x1_0000_0000_0000_0000

  /** Constants are folded as signed numbers. For unsigned operands the result is the right one in
      exactly these cases. */
  lemma UnsignedIff(op: Source.BinOp, a: I64, b: I64)
    requires FoldArith(op, a, b).Ok?
    ensures ApplyUnsigned(op, a, b) == Some(FoldArith(op, a, b).e.v) <==> SignBlind(op, a, b)
  {
    hide Wrap, Pow2, Source.TruncDiv, Source.Unsigned, And, Or, Xor;
    UnsignedIs(a);
    UnsignedIs(b);
    match op
    case Div => UnsignedQuotient(a, b);
    case Mod => UnsignedRemainder(a, b);
    case ShiftRight => UnsignedShift(a, b);
    case _ =>
  }

  lemma UnsignedIs(a: I64)
    ensures Source.Unsigned(a) == if a < 0 then WORD + a else a
  {}

  lemma WrapIs(x: int)
    requires -WORD / 2 <= x < WORD
    ensures Wrap(x) == if x < WORD / 2 then x else x - WORD
  {}

  /** The magnitude of a number. */
  function Abs(a: int): nat { if a < 0 then -a else a }

  lemma QuotientIs(x: nat, d: nat, q: nat)
    requires d > 0 && q * d <= x < q * d + d
    ensures x / d == q && x % d == x - q * d
  {
    var p := x / d;
    assert x == p * d + x % d;
    Distributes(p, q, d);
    Gap(p - q, d);
  }

  lemma Distributes(p: int, q: int, d: int)
    ensures (p - q) * d == p * d - q * d
  {}

  lemma Gap(k: int, d: int)
    requires -d < k * d < d
    ensures k == 0
  {}

  lemma NoQuotient(m: nat, n: nat)
    requires n > 0
    ensures (m / n == 0 <==> m < n) && (m % n == m <==> m < n)
  {
    if m < n { QuotientIs(m, n, 0); }
  }

  lemma QuotientOne(m: nat, n: nat)
    requires 0 < n <= m < 2 * n
    ensures m / n == 1 && m % n == m - n
  {
    QuotientIs(m, n, 1);
  }

  lemma HalfAtMost(x: nat, n: nat)
    requires n >= 2
    ensures 2 * (x / n) <= x
  {
    assert n * (x / n) <= x;
  }

  lemma UnsignedQuotient(a: I64, b: I64)
    requires !Source.DivTraps(a, b)
    ensures Wrap(Source.Unsigned(a) / Source.Unsigned(b)) == Wrap(Source.TruncDiv(a, b))
        <==> SignBlind(Source.Div, a, b)
  {
    hide Source.Unsigned, Wrap;
    UnsignedIs(a);
    UnsignedIs(b);
    if b > 0 {
      if a < 0 { DivideNegative(Abs(a), b); }
    } else if a >= 0 {
      DivideByNegative(a, Abs(b));
    } else {
      DivideBothNegative(Abs(a), Abs(b));
    }
  }

  lemma DivideNegative(m: nat, n: nat)
    requires 0 < m <= WORD / 2 && 0 < n < WORD / 2
    ensures Wrap((WORD - m) / n) == Wrap(-(m / n)) <==> n == 1
  {
    hide Wrap;
    var u := Quotient(WORD - m, n);
    var q := Quotient(m, n);
    DivideNegativeWraps(m, n, u, q);
  }

  lemma Quotient(x: nat, n: nat) returns (q: int)
    requires n > 0
    ensures q == x / n && q >= 0 && (q == 0 <==> x < n) && if n == 1 then q == x else 2 * q <= x
  {
    QuotientSize(x, n);
    NoQuotient(x, n);
    q := x / n;
  }

  lemma DivideNegativeWraps(m: nat, n: nat, u: int, q: int)
    requires 0 < m <= WORD / 2 && 0 < n && 0 < u && 0 <= q
    requires if n == 1 then u == WORD - m && q == m else 2 * u <= WORD - m && 2 * q <= m
    ensures Wrap(u) == Wrap(-q) <==> n == 1
  {
    hide Wrap;
    WrapIs(u);
    WrapIs(-q);
  }

  lemma DivideByNegative(m: nat, n: nat)
    requires m < WORD / 2 && 0 < n <= WORD / 2
    ensures Wrap(m / (WORD - n)) == Wrap(-(m / n)) <==> m < n
  {
    hide Wrap;
    var q: int := m / n;
    QuotientSize(m, n);
    NoQuotient(m, WORD - n);
    NoQuotient(m, n);
    WrapIs(0);
    WrapIs(-q);
  }

  lemma DivideBothNegative(m: nat, n: nat)
    requires 0 < m <= WORD / 2 && 0 < n <= WORD / 2 && !(m == WORD / 2 && n == 1)
    ensures Wrap((WORD - m) / (WORD - n)) == Wrap(m / n) <==> m == n
  {
    hide Wrap;
    var q: int := m / n;
    QuotientSize(m, n);
    UnsignedBothNegative(m, n);
    NoQuotient(m, n);
    WrapIs(q);
    WrapIs(if m <= n then 1 else 0);
  }

  lemma QuotientSize(x: nat, n: nat)
    requires n > 0
    ensures if n == 1 then x / n == x else 2 * (x / n) <= x
  {
    if n > 1 { HalfAtMost(x, n); }
  }

  lemma UnsignedBothNegative(m: nat, n: nat)
    requires 0 < m <= WORD / 2 && 0 < n <= WORD / 2
    ensures (WORD - m) / (WORD - n) == if m <= n then 1 else 0
    ensures (WORD - m) % (WORD - n) == if m <= n then n - m else WORD - m
    ensures m == n ==> m / n == 1 && m % n == 0
  {
    if m <= n { QuotientOne(WORD - m, WORD - n); } else { NoQuotient(WORD - m, WORD - n); }
    if m == n { QuotientOne(m, n); }
  }

  lemma SignedRemainder(a: int, b: int)
    requires b != 0
    ensures a - Source.TruncDiv(a, b) * b == if a < 0 then -(Abs(a) % Abs(b)) else Abs(a) % Abs(b)
  {
    var m, n := Abs(a), Abs(b);
    var q, r := m / n, m % n;
    assert m == q * n + r;
    SignedParts(a, b, q, r);
  }

  lemma SignedParts(a: int, b: int, q: int, r: int)
    requires Abs(a) == q * Abs(b) + r
    ensures a - (if (a < 0) == (b < 0) then q else -q) * b == if a < 0 then -r else r
  {
    Signs(q, Abs(b));
  }

  lemma Signs(q: int, n: int)
    ensures (-q) * n == -(q * n) && (-q) * (-n) == q * n && q * (-n) == -(q * n)
  {}

  lemma UnsignedRemainder(a: I64, b: I64)
    requires !Source.DivTraps(a, b)
    ensures Wrap(Source.Unsigned(a) % Source.Unsigned(b)) == Wrap(a - Source.TruncDiv(a, b) * b)
        <==> SignBlind(Source.Mod, a, b)
  {
    hide Source.TruncDiv, Source.Unsigned, Wrap;
    UnsignedIs(a);
    UnsignedIs(b);
    SignedRemainder(a, b);
    var m, n := Abs(a), Abs(b);
    var r: int := m % n;
    NoQuotient(m, n);
    if b > 0 {
      if a < 0 {
        BothDivide(a, b);
        WrapIs((WORD - m) % n);
        WrapIs(-r);
      }
    } else if a >= 0 {
      NoQuotient(m, WORD - n);
      WrapIs(m);
      WrapIs(r);
    } else {
      UnsignedBothNegative(m, n);
      WrapIs(if m <= n then n - m else WORD - m);
      WrapIs(-r);
    }
  }

  lemma BothDivide(a: int, n: nat)
    requires 0 < n && a < 0 <= WORD + a
    ensures (-a) % n == 0 && (WORD + a) % n == 0 <==> a % n == 0 && WORD % n == 0
  {
    var q, p := a / n, WORD / n;
    if a % n == 0 { Multiple(-a, n, -q); }
    if (-a) % n == 0 { Multiple(a, n, -((-a) / n)); }
    if a % n == 0 && WORD % n == 0 { Multiple(WORD + a, n, p + q); }
    if a % n == 0 && (WORD + a) % n == 0 { Multiple(WORD, n, (WORD + a) / n - q); }
  }

  lemma Multiple(x: int, n: nat, k: int)
    requires n > 0 && x == k * n
    ensures x % n == 0
  {
    var p := x / n;
    assert x == p * n + x % n;
    Distributes(k, p, n);
    Gap(k - p, n);
  }

  lemma UnsignedShift(a: I64, b: I64)
    requires 0 <= b < 64
    ensures Wrap(Source.Unsigned(a) / Pow2(b % 64)) == Wrap(a / Pow2(b % 64)) <==> SignBlind(Source.ShiftRight, a, b)
  {
    hide Source.Unsigned, Wrap, Pow2;
    UnsignedIs(a);
    assert b % 64 == b;
    if a < 0 {
      if b == 0 { PowZero(); } else { PowEven(b); }
      ShiftedNegative(a, Pow2(b));
    }
  }

  lemma ShiftedNegative(a: I64, p: nat)
    requires a < 0 < p
    ensures Wrap((WORD + a) / p) == Wrap(a / p) <==> p == 1
  {
    var u, q := (WORD + a) / p, a / p;
    NegativeQuotient(a, p);
    QuotientSize(WORD + a, p);
    if p == 1 { NoRemainder(a); }
    WrapDiffers(a, p, u, q);
  }

  lemma NoRemainder(a: int)
    ensures a / 1 == a
  {}

  /** u and q are half a range apart unless nothing is shifted out. */
  lemma WrapDiffers(a: I64, p: nat, u: int, q: int)
    requires a <= q < 0 < p && 0 <= u && (if p == 1 then u == WORD + a && q == a else 2 * u <= WORD + a)
    ensures Wrap(u) == Wrap(q) <==> p == 1
  {
    hide Wrap;
    WrapIs(u);
    WrapIs(q);
  }

  lemma PowZero()
    ensures Pow2(0) == 1
  {}

  lemma PowEven(b: nat)
    requires b > 0
    ensures Pow2(b) >= 2
  {}

  lemma NegativeQuotient(a: int, n: nat)
    requires a < 0 < n
    ensures a <= a / n < 0
  {
    var q, r := a / n, a % n;
    assert a == q * n + r && r < n;
    NegativeParts(a, n, q, r);
  }

  lemma NegativeParts(a: int, n: nat, q: int, r: nat)
    requires a == q * n + r && r < n && a < 0
    ensures a <= q < 0
  {
    Distributes(q, -1, n);
    NotPositive(q + 1, n);
  }

  lemma NotPositive(k: int, n: nat)
    requires n > 0
    ensures k <= 0 ==> k * n <= k
    ensures k > 0 ==> (k - 1) * n >= 0
  {}

  lemma TwoLogic(o: World, op: Op, l: Expr, r: Expr, l': Expr, r': Expr, st: State)
    requires !op.Arith? && !(l'.Num? && Decides(op, l'.v)) && Eval(o, l', st) == Eval(o, l, st)
    requires Eval(o, l, st).Val? ==> Eval(o, r', Eval(o, l, st).st) == Eval(o, r, Eval(o, l, st).st)
    requires r'.Num? && Decides(op, r'.v) ==> Eval(o, l, st).Val? && Eval(o, l, st).st == st
    ensures FoldTwo(op, l', r').Ok? && Eval(o, FoldTwo(op, l', r').e, st) == Eval(o, Bin(op, l, r), st)
  {
    if l'.Num? { assert Eval(o, l', st) == Val(l'.v, st); }
    if r'.Num? && Eval(o, l, st).Val? { assert Eval(o, r', Eval(o, l, st).st) == Val(r'.v, Eval(o, l, st).st); }
  }

  lemma {:induction false} FoldSides(e: Expr)
    requires Sides(e) && Fold(e).Ok?
    ensures Sides(Fold(e).e)
    decreases e
  {
    hide SignBlind, NoMeaning, Source.Apply;
    match e
    case Un(op, l) => FoldSides(l);
    case Bin(op, l, r) =>
      FoldSides(l);
      var l' := Fold(l).e;
      if !(l'.Num? && Decides(op, l'.v)) {
        FoldSides(r);
        FoldTwice(l);
        FoldTwice(r);
        var r' := Fold(r).e;
        if op.Arith? && l'.Num? && r'.Num? { FoldedNumber(op.op, l'.v, r'.v); }
      }
    case _ =>
  }

  /** The folded expression computes the same value, has the same effects in the same order, and traps
      in the same cases, in every state. */
  lemma {:induction false} FoldAllSound(o: World, e: Expr, st: State)
    requires Sides(e) && FoldAll(e).Ok?
    ensures Eval(o, FoldAll(e).e, st) == Eval(o, e, st)
    decreases Size(e), 1
  {
    FoldSound(o, e, st);
    FoldSides(e);
    FoldBelowSound(o, Fold(e).e, st);
  }

  lemma {:induction false} FoldBelowSound(o: World, e: Expr, st: State)
    requires Sides(e) && FoldBelow(e).Ok?
    ensures Eval(o, FoldBelow(e).e, st) == Eval(o, e, st)
    decreases Size(e), 0
  {
    match e
    case Un(_, l) => FoldAllSound(o, l, st);
    case Bin(op, l, r) =>
      var first, second := (if op.Arith? then r else l), (if op.Arith? then l else r);
      FoldAllSound(o, first, st);
      var q := Eval(o, first, st);
      if q.Val? { FoldAllSound(o, second, q.st); }
    case Assign(_, l) => FoldAllSound(o, l, st);
    case Comma(l, r) =>
      FoldAllSound(o, l, st);
      var q := Eval(o, l, st);
      if q.Val? { FoldAllSound(o, r, q.st); }
    case Call(l) => FoldAllSound(o, l, st);
    case _ =>
  }

  // ----- rejections -----

  /** Fold looks at d inside e: no left side that folds to a deciding constant shields it. */
  predicate Looked(e: Expr, d: Expr) {
    d == e ||
    match e
    case Un(_, l) => Looked(l, d)
    case Bin(op, l, r) => Looked(l, d) || (!DecidingConstant(op, l) && Looked(r, d))
    case _ => false
  }

  /** FoldAll looks at d inside e: it goes on below whatever has not become a constant. */
  predicate Reached(e: Expr, d: Expr) {
    Looked(e, d) ||
    (Constant(e).None? &&
      match e
      case Un(_, l) => Reached(l, d)
      case Bin(op, l, r) => Reached(l, d) || Reached(r, d)
      case Assign(_, l) => Reached(l, d)
      case Comma(l, r) => Reached(l, d) || Reached(r, d)
      case Call(l) => Reached(l, d)
      case _ => false)
  }

  predicate ConstantOperands(d: Expr) { d.Bin? && d.op.Arith? && Constant(d.l).Some? && Constant(d.r).Some? }

  predicate DividesByZero(d: Expr) { ConstantOperands(d) && (d.op.op.Div? || d.op.op.Mod?) && Constant(d.r).value == 0 }

  predicate Meaningless(d: Expr) { ConstantOperands(d) && NoMeaning(d.op.op, Constant(d.l).value, Constant(d.r).value) }

  predicate Faulty(d: Expr) { DividesByZero(d) || Meaningless(d) }

  lemma {:induction false} FoldFails(e: Expr) returns (d: Expr)
    requires !Fold(e).Ok?
    ensures Looked(e, d) && Faulty(d) && (Fold(e) == Rejected ==> DividesByZero(d))
    decreases e
  {
    hide NoMeaning;
    match e {
      case Un(_, l) => d := FoldFails(l);
      case Bin(op, l, r) =>
        if !Fold(l).Ok? {
          d := FoldFails(l);
        } else if !Fold(r).Ok? {
          d := FoldFails(r);
        } else {
          d := e;
        }
    }
  }

  lemma {:induction false} FoldPasses(e: Expr, d: Expr)
    requires Fold(e).Ok? && Looked(e, d)
    ensures !Faulty(d)
    decreases e
  {
    hide NoMeaning;
    match e
    case Un(_, l) => if d != e { FoldPasses(l, d); }
    case Bin(op, l, r) =>
      if d != e {
        if Looked(l, d) { FoldPasses(l, d); } else { FoldPasses(r, d); }
      }
    case _ =>
  }

  /** Folding a folded child is folding the child. */
  lemma FoldedChild(c: Expr)
    requires Fold(c).Ok?
    ensures FoldAll(Fold(c).e) == FoldAll(c)
  {
    FoldTwice(c);
  }

  /** An expression that folds, but not to a constant, keeps its shape. */
  lemma FoldShape(e: Expr)
    requires Fold(e).Ok? && Constant(e).None?
    ensures e.Un? ==> Fold(e.l).Ok? && Fold(e).e == Un(e.uop, Fold(e.l).e)
    ensures e.Bin? ==> Fold(e.l).Ok? && Fold(e.r).Ok? && Fold(e).e == Bin(e.op, Fold(e.l).e, Fold(e.r).e)
    ensures !e.Un? && !e.Bin? ==> Fold(e).e == e
  {}

  /** The children fold together. */
  lemma FoldAllChildren(e: Expr)
    requires Fold(e).Ok? && Constant(e).None?
    ensures e.Un? || e.Assign? || e.Call? ==>
      (FoldAll(e).Ok? <==> FoldAll(e.l).Ok?) && (FoldAll(e) == Rejected <==> FoldAll(e.l) == Rejected)
    ensures e.Bin? || e.Comma? ==>
      && (FoldAll(e).Ok? <==> FoldAll(e.l).Ok? && FoldAll(e.r).Ok?)
      && (FoldAll(e) == Rejected <==> FoldAll(e.l) == Rejected || (FoldAll(e.l).Ok? && FoldAll(e.r) == Rejected))
  {
    FoldShape(e);
    if e.Un? || e.Bin? { FoldedChild(e.l); }
    if e.Bin? { FoldedChild(e.r); }
  }

  lemma {:induction false} FoldAllFails(e: Expr) returns (d: Expr)
    requires !FoldAll(e).Ok?
    ensures Reached(e, d) && Faulty(d) && (FoldAll(e) == Rejected ==> DividesByZero(d))
    decreases e
  {
    hide FoldAll, Fold, Looked, Faulty, DividesByZero, Meaningless;
    WhereItFails(e);
    if !Fold(e).Ok? {
      d := FoldFails(e);
    } else if (e.Bin? || e.Comma?) && FoldAll(e.l).Ok? {
      d := FoldAllFails(e.r);
    } else {
      d := FoldAllFails(e.l);
    }
  }

  lemma WhereItFails(e: Expr)
    requires !FoldAll(e).Ok?
    ensures !Fold(e).Ok? ==> FoldAll(e) == Fold(e)
    ensures Fold(e).Ok? ==> Constant(e).None? && !e.Num? && !e.Var?
    ensures Fold(e).Ok? && (e.Un? || e.Assign? || e.Call?) ==>
      !FoldAll(e.l).Ok? && (FoldAll(e) == Rejected <==> FoldAll(e.l) == Rejected)
    ensures Fold(e).Ok? && (e.Bin? || e.Comma?) ==>
      && !(FoldAll(e.l).Ok? && FoldAll(e.r).Ok?)
      && (FoldAll(e) == Rejected <==> FoldAll(e.l) == Rejected || (FoldAll(e.l).Ok? && FoldAll(e.r) == Rejected))
  {
    if Fold(e).Ok? && Constant(e).None? { FoldAllChildren(e); }
  }

  lemma {:induction false} FoldAllPasses(e: Expr, d: Expr)
    requires FoldAll(e).Ok? && Reached(e, d)
    ensures !Faulty(d)
    decreases e
  {
    hide Faulty;
    if Looked(e, d) {
      FoldPasses(e, d);
    } else {
      FoldAllChildren(e);
      if (e.Bin? || e.Comma?) && !Reached(e.l, d) { FoldAllPasses(e.r, d); } else { FoldAllPasses(e.l, d); }
    }
  }

  /** An expression is accepted exactly when nothing that is looked at in it divides a constant by zero
      or has no meaning for the host; what is shielded does not matter. */
  lemma AcceptedIff(e: Expr)
    ensures FoldAll(e).Ok? <==> forall d :: Reached(e, d) ==> !Faulty(d)
  {
    if FoldAll(e).Ok? {
      forall d | Reached(e, d) ensures !Faulty(d) { FoldAllPasses(e, d); }
    } else {
      var d := FoldAllFails(e);
    }
  }

  /** A rejected expression contains, unshielded, a division that traps in every state. */
  lemma RejectedReason(e: Expr) returns (d: Expr)
    requires Sides(e) && FoldAll(e) == Rejected
    ensures Reached(e, d) && DividesByZero(d) && forall o: World, st: State :: Eval(o, d, st).Trap?
  {
    d := FoldAllFails(e);
    SidesInside(e, d);
    forall o: World, st: State ensures Eval(o, d, st).Trap? { ByZero(o, d.op, d.l, d.r, st); }
  }

  lemma {:induction false} SidesInside(e: Expr, d: Expr)
    requires Sides(e) && Reached(e, d)
    ensures Sides(d)
    decreases e
  {
    hide SignBlind, Fold;
    if Looked(e, d) {
      SidesLooked(e, d);
    } else if (e.Bin? || e.Comma?) && !Reached(e.l, d) {
      SidesInside(e.r, d);
    } else {
      SidesInside(e.l, d);
    }
  }

  lemma {:induction false} SidesLooked(e: Expr, d: Expr)
    requires Sides(e) && Looked(e, d)
    ensures Sides(d)
    decreases e
  {
    hide SignBlind, Fold;
    if d != e {
      if e.Bin? && !Looked(e.l, d) { SidesLooked(e.r, d); } else { SidesLooked(e.l, d); }
    }
  }

  lemma ByZero(o: World, op: Op, l: Expr, r: Expr, st: State)
    requires Sides(Bin(op, l, r)) && DividesByZero(Bin(op, l, r))
    ensures Eval(o, Bin(op, l, r), st).Trap?
  {
    FoldSound(o, r, st);
    var q := Eval(o, r, st);
    FoldSound(o, l, q.st);
  }

  // ----- the folder as it runs -----

  datatype Kind = KNum | KVar(x: nat) | KUn(uop: UnOp) | KBin(op: Op) | KAssign(x: nat) | KComma | KCall

  datatype Status = Fine | DivisionByZero | HostUndefined

  function StatusOf(f: Folded): Status {
    match f
    case Ok(_) => Fine
    case Rejected => DivisionByZero
    case Undefined => HostUndefined
  }

  /** A node of the tree, rewritten in place: a folded one becomes a number and keeps its children,
      which nothing looks at any more. */
  class Node {
    var kind: Kind
    var val: I64
    var lhs: Node?
    var rhs: Node?
    ghost var Repr: set<object>
    ghost var tree: Expr

    ghost predicate Valid()
      reads this, Repr
      decreases Repr, 1
    {
      this in Repr &&
      match kind
      case KNum => tree == Num(val)
      case KVar(x) => tree == Var(x)
      case KUn(op) => Child(lhs) && tree == Un(op, lhs.tree)
      case KBin(op) => Child(lhs) && Child(rhs) && lhs.Repr !! rhs.Repr && tree == Bin(op, lhs.tree, rhs.tree)
      case KAssign(x) => Child(lhs) && tree == Assign(x, lhs.tree)
      case KComma => Child(lhs) && Child(rhs) && lhs.Repr !! rhs.Repr && tree == Comma(lhs.tree, rhs.tree)
      case KCall => Child(lhs) && tree == Call(lhs.tree)
    }

    ghost predicate Child(c: Node?)
      requires this in Repr
      reads this, Repr
      decreases Repr, 0
    {
      c != null && c in Repr && c in c.Repr && c.Repr <= Repr && this !in c.Repr && c.Valid()
    }

    constructor Leaf(v: I64)
      ensures Valid() && tree == Num(v) && fresh(Repr)
    {
      kind, val, lhs, rhs := KNum, v, null, null;
      Repr, tree := {this}, Num(v);
    }

    constructor NewUnary(op: UnOp, l: Node)
      requires l.Valid()
      ensures Valid() && tree == Un(op, l.tree) && fresh(Repr - l.Repr)
    {
      kind, val, lhs, rhs := KUn(op), 0, l, null;
      Repr, tree := {this} + l.Repr, Un(op, l.tree);
    }

    constructor NewBinary(op: Op, l: Node, r: Node)
      requires l.Valid() && r.Valid() && l.Repr !! r.Repr
      ensures Valid() && tree == Bin(op, l.tree, r.tree) && fresh(Repr - l.Repr - r.Repr)
    {
      kind, val, lhs, rhs := KBin(op), 0, l, r;
      Repr, tree := {this} + l.Repr + r.Repr, Bin(op, l.tree, r.tree);
    }

    /** The node becomes a number. */
    method Become(v: I64)
      requires Valid()
      modifies this`kind, this`val, this`tree
      ensures Valid() && tree == Num(v) && kind == KNum && val == v
    {
      kind, val := KNum, v;
      tree := Num(v);
    }

    method ConstFold() returns (s: Status)
      requires Valid()
      modifies Repr
      ensures s == StatusOf(Fold(old(tree))) && Repr == old(Repr)
      ensures s == Fine ==> Valid() && Ok(tree) == Fold(old(tree))
      decreases Repr, 1
    {
      s := Fine;
      match kind
      case KUn(op) =>
        s := lhs.ConstFold();
        if s != Fine { return; }
        tree := Un(op, lhs.tree);
        if lhs.kind == KNum { Become(Unary(op, lhs.val)); }
      case KBin(op) => s := FoldBinary();
      case _ =>
    }

    method FoldBinary() returns (s: Status)
      requires Valid() && kind.KBin?
      modifies Repr
      ensures s == StatusOf(Fold(old(tree))) && Repr == old(Repr)
      ensures s == Fine ==> Valid() && Ok(tree) == Fold(old(tree))
      decreases Repr, 0
    {
      var op := kind.op;
      assert Child(lhs) && Child(rhs) && lhs.Repr !! rhs.Repr && rhs in rhs.Repr;
      s := lhs.ConstFold();
      if s != Fine { return; }
      assert Child(lhs) && Child(rhs);
      tree := Bin(op, lhs.tree, rhs.tree);
      if lhs.kind == KNum && Decides(op, lhs.val) {
        Become(Source.Truth(op.OrElse?));
        return;
      }
      s := rhs.ConstFold();
      if s != Fine { return; }
      tree := Bin(op, lhs.tree, rhs.tree);
      s := FoldOperands(op);
    }

    /** The node itself, its operands being folded. */
    method FoldOperands(op: Op) returns (s: Status)
      requires Valid() && kind == KBin(op) && Child(lhs) && Child(rhs) && !(lhs.kind == KNum && Decides(op, lhs.val))
      modifies this`kind, this`val, this`tree
      ensures s == StatusOf(FoldTwo(op, old(tree).l, old(tree).r))
      ensures s == Fine ==> Valid() && Ok(tree) == FoldTwo(op, old(tree).l, old(tree).r)
    {
      s := Fine;
      if lhs.kind == KNum && rhs.kind == KNum {
        var a, b := lhs.val, rhs.val;
        if op.Arith? {
          if (op.op.Div? || op.op.Mod?) && b == 0 { return DivisionByZero; }
          if NoMeaning(op.op, a, b) { return HostUndefined; }
          Become(Source.Apply(op.op, a, b).value);
        } else {
          Become(Source.Truth(if op.AndAlso? then a != 0 && b != 0 else a != 0 || b != 0));
        }
      } else if !op.Arith? && rhs.kind == KNum && Decides(op, rhs.val) {
        Become(Source.Truth(op.OrElse?));
      }
    }

    /** Folds the node, then what is left below it. */
    method FoldBody() returns (s: Status)
      requires Valid()
      modifies Repr
      ensures s == StatusOf(FoldAll(old(tree))) && Repr == old(Repr)
      ensures s == Fine ==> Valid() && Ok(tree) == FoldAll(old(tree))
      decreases Repr, 3
    {
      s := ConstFold();
      if s != Fine || kind == KNum { return; }
      s := FoldChildren();
    }

    method FoldChildren() returns (s: Status)
      requires Valid() && kind != KNum
      modifies Repr
      ensures s == StatusOf(FoldBelow(old(tree))) && Repr == old(Repr)
      ensures s == Fine ==> Valid() && Ok(tree) == FoldBelow(old(tree))
      decreases Repr, 2
    {
      s := Fine;
      if kind.KVar? { return; }
      assert Child(lhs) && (kind.KBin? || kind.KComma? ==> Child(rhs) && lhs.Repr !! rhs.Repr && rhs in rhs.Repr);
      s := lhs.FoldBody();
      if s != Fine { return; }
      assert Child(lhs) && (kind.KBin? || kind.KComma? ==> Child(rhs));
      match kind
      case KUn(op) => tree := Un(op, lhs.tree);
      case KAssign(x) => tree := Assign(x, lhs.tree);
      case KCall => tree := Call(lhs.tree);
      case KBin(op) =>
        s := rhs.FoldBody();
        if s == Fine { tree := Bin(op, lhs.tree, rhs.tree); }
      case KComma =>
        s := rhs.FoldBody();
        if s == Fine { tree := Comma(lhs.tree, rhs.tree); }
      case _ =>
    }
  }
}
