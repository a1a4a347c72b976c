/** The line table of DWARF 4: how rows are recorded, how they are encoded, and the state machine of
    section 6.2 that reads them back. */
module Dwarf {
  import opened Common
  import opened Lzss
  import opened Words

  type Bytes = seq<Byte>

  // ----- LEB128 (section 7.6) -----

  function Uleb(n: nat): Bytes {
    if n < 128 then [n] else [n % 128 + 128] + Uleb(n / 128)
  }

  function Sleb(v: int): Bytes
    decreases if v < 0 then -v else v
  {
    var b, w := v % 128, v / 128;
    if (w == 0 && b < 64) || (w == -1 && b >= 64) then [b] else [b + 128] + Sleb(w)
  }

  datatype Read = Read(v: int, rest: Bytes)

  function ReadUleb(s: Bytes): (r: Option<Read>)
    ensures r.Some? ==> |r.value.rest| < |s| && r.value.v >= 0
  {
    if s == [] then None
    else
      var b: int := s[0];
      if b < 128 then Some(Read(b, s[1..]))
      else
        match ReadUleb(s[1..])
        case None => None
        case Some(r) => Some(Read(b - 128 + 128 * r.v, r.rest))
  }

  function ReadSleb(s: Bytes): (r: Option<Read>)
    ensures r.Some? ==> |r.value.rest| < |s|
  {
    if s == [] then None
    else
      var b: int := s[0];
      if b < 64 then Some(Read(b, s[1..]))
      else if b < 128 then Some(Read(b - 128, s[1..]))
      else
        match ReadSleb(s[1..])
        case None => None
        case Some(r) => Some(Read(b - 128 + 128 * r.v, r.rest))
  }

  lemma {:induction false} UlebBack(n: nat, rest: Bytes)
    ensures ReadUleb(Uleb(n) + rest) == Some(Read(n, rest))
    decreases n
  {
    var s := Uleb(n) + rest;
    if n < 128 {
      assert s[1..] == rest;
    } else {
      UlebBack(n / 128, rest);
      assert s[1..] == Uleb(n / 128) + rest;
    }
  }

  lemma {:induction false} SlebBack(v: int, rest: Bytes)
    ensures ReadSleb(Sleb(v) + rest) == Some(Read(v, rest))
    decreases if v < 0 then -v else v
  {
    var s := Sleb(v) + rest;
    var b, w := v % 128, v / 128;
    if (w == 0 && b < 64) || (w == -1 && b >= 64) {
      assert s[1..] == rest;
    } else {
      SlebBack(w, rest);
      assert s[1..] == Sleb(w) + rest;
    }
  }

  // ----- the state machine (section 6.2.2) -----

  datatype Regs = Regs(addr: int, file: int, line: int)

  /** A row of the matrix; the last one of a sequence marks the end. */
  datatype Row = Row(addr: int, file: int, line: int, end: bool)

  const FRESH := Regs(0, 1, 1)

  function Emit(m: Regs, end: bool): Row { Row(m.addr, m.file, m.line, end) }

  function Prepend(r: Row, rows: Option<seq<Row>>): Option<seq<Row>> {
    if rows.None? then None else Some([r] + rows.value)
  }

  /** Those without an argument and without effect here. */
  predicate Ignored(op: Byte) { op == 6 || op == 7 || op == 10 || op == 11 }

  /** Runs a line-number program whose line_base is -5, line_range 14 and opcode_base 13. */
  function Run(p: Bytes, m: Regs): Option<seq<Row>>
    decreases |p|
  {
    if p == [] then Some([])
    else
      var op, args := p[0], p[1..];
      if op >= 13 then
        var m' := m.(addr := m.addr + (op - 13) / 14, line := m.line - 5 + (op - 13) % 14);
        Prepend(Emit(m', false), Run(args, m'))
      else if op == 0 then Extended(p, m)
      else if op == 1 then Prepend(Emit(m, false), Run(args, m))
      else if op == 8 then Run(args, m.(addr := m.addr + 17))
      else if op == 9 then if |args| < 2 then None else Run(args[2..], m.(addr := m.addr + Num(args[..2])))
      else if Ignored(op) then Run(args, m)
      else if op == 3 then
        var r := ReadSleb(args);
        if r.None? then None else Run(r.value.rest, m.(line := m.line + r.value.v))
      else
        var r := ReadUleb(args);
        if r.None? then None
        else if op == 2 then Run(r.value.rest, m.(addr := m.addr + r.value.v))
        else if op == 4 then Run(r.value.rest, m.(file := r.value.v))
        else Run(r.value.rest, m)
  }

  /** An extended opcode: a length, then the opcode and its operands. */
  function Extended(p: Bytes, m: Regs): Option<seq<Row>>
    requires p != []
    decreases |p|, 0
  {
    var r := ReadUleb(p[1..]);
    if r.None? || r.value.v == 0 || |r.value.rest| < r.value.v then None
    else
      var n, s := r.value.v, r.value.rest;
      if s[0] == 1 then Prepend(Emit(m, true), Run(s[n..], FRESH))
      else if s[0] == 2 && n == 9 then Run(s[n..], m.(addr := Num(s[1..9])))
      else Run(s[n..], m)
  }

  // ----- recorded rows -----

  /** A statement's first byte, its file counted from 0, and its line. */
  datatype Mark = Mark(addr: nat, file: nat, line: nat)

  predicate Rising(rows: seq<Mark>) { forall i, j :: 0 <= i < j < |rows| ==> rows[i].addr < rows[j].addr }

  /** Recording a statement: nothing new on the same line, a replacement at the same address. */
  function Marked(rows: seq<Mark>, addr: nat, file: nat, line: nat): seq<Mark> {
    if rows == [] then [Mark(addr, file, line)]
    else
      var last := rows[|rows| - 1];
      if last.file == file && last.line == line then rows
      else if last.addr == addr then rows[..|rows| - 1] + [Mark(addr, file, line)]
      else rows + [Mark(addr, file, line)]
  }

  /** The statement to which address a belongs: the last row not behind it. */
  function RowAt(rows: seq<Mark>, a: int): Option<Mark> {
    if rows == [] then None
    else if rows[|rows| - 1].addr <= a then Some(rows[|rows| - 1])
    else RowAt(rows[..|rows| - 1], a)
  }

  lemma {:induction false} AtBefore(rows: seq<Mark>, more: seq<Mark>, a: int)
    requires forall i :: 0 <= i < |more| ==> more[i].addr > a
    ensures RowAt(rows + more, a) == RowAt(rows, a)
    decreases |more|
  {
    if more == [] {
      assert rows + more == rows;
    } else {
      var n := |more| - 1;
      assert (rows + more)[..|rows + more| - 1] == rows + more[..n];
      AtBefore(rows, more[..n], a);
    }
  }

  /** Code is only appended, so addresses rise strictly; what has been emitted before keeps its lines,
      and the new code gets those of its statement. */
  lemma MarkedOk(rows: seq<Mark>, addr: nat, file: nat, line: nat)
    requires Rising(rows) && (rows != [] ==> rows[|rows| - 1].addr <= addr)
    ensures var r := Marked(rows, addr, file, line);
      && Rising(r) && r != [] && r[|r| - 1].addr <= addr
      && (forall a :: a >= addr ==>
            RowAt(r, a).Some? && RowAt(r, a).value.file == file && RowAt(r, a).value.line == line)
      && (forall a :: a < addr ==> RowAt(r, a) == RowAt(rows, a))
  {
    if rows != [] {
      var n := |rows| - 1;
      var last := rows[n];
      assert rows == rows[..n] + [last];
      if last.file != file || last.line != line {
        forall a | a < addr ensures RowAt(Marked(rows, addr, file, line), a) == RowAt(rows, a) {
          if last.addr == addr {
            AtBefore(rows[..n], [last], a);
            AtBefore(rows[..n], [Mark(addr, file, line)], a);
          } else {
            AtBefore(rows, [Mark(addr, file, line)], a);
          }
        }
      }
    } else {
      forall a | a < addr ensures RowAt([Mark(addr, file, line)], a) == RowAt([], a) {
        AtBefore([], [Mark(addr, file, line)], a);
        var none: seq<Mark> := [];
        assert none + [Mark(addr, file, line)] == [Mark(addr, file, line)];
      }
    }
  }

  // ----- encoding -----

  function SetFile(r: Mark, file: nat): Bytes { if r.file == file then [] else [4] + Uleb(r.file + 1) }

  function AdvancePc(delta: nat): Bytes { if delta == 0 then [] else [2] + Uleb(delta) }

  function AdvanceLine(delta: int): Bytes { if delta == 0 then [] else [3] + Sleb(delta) }

  /** The opcodes for rows, from a machine at the given address, line and file. */
  function Opcodes(rows: seq<Mark>, addr: nat, line: nat, file: nat): Bytes
    requires Rising(rows) && (rows != [] ==> addr <= rows[0].addr)
  {
    if rows == [] then []
    else
      var r := rows[0];
      RowCode(r, addr, line, file) + Opcodes(rows[1..], r.addr, r.line, r.file)
  }

  /** What changed since the last row, then the row. */
  function RowCode(r: Mark, addr: nat, line: nat, file: nat): Bytes
    requires addr <= r.addr
  {
    SetFile(r, file) + AdvancePc(r.addr - addr) + AdvanceLine(r.line - line) + [1]
  }

  function SetAddress(addr: nat): Bytes { [0] + Uleb(9) + [2] + Le(addr, 8) }

  function EndSequence(advance: int): Bytes { (if advance > 0 then [2] + Uleb(advance) else []) + [0] + Uleb(1) + [1] }

  function LastAddr(rows: seq<Mark>): nat { if rows == [] then 0 else rows[|rows| - 1].addr }

  function Program(rows: seq<Mark>, vaddr: nat, size: nat): Bytes
    requires Rising(rows)
  {
    SetAddress(vaddr) + Opcodes(rows, 0, 1, 0) + EndSequence(size - LastAddr(rows))
  }

  /** The rows a debugger should see. */
  function Shifted(rows: seq<Mark>, vaddr: nat): (s: seq<Row>)
    ensures |s| == |rows|
  {
    seq(|rows|, i requires 0 <= i < |rows| => Row(vaddr + rows[i].addr, rows[i].file + 1, rows[i].line, false))
  }

  lemma RunUnsigned(p: Bytes, m: Regs)
    requires p != [] && (p[0] == 2 || p[0] == 4)
    ensures var r := ReadUleb(p[1..]);
      Run(p, m) == if r.None? then None
          else Run(r.value.rest, if p[0] == 2 then m.(addr := m.addr + r.value.v) else m.(file := r.value.v))
  {}

  lemma RunSetFile(r: Mark, file: nat, rest: Bytes, m: Regs)
    requires m.file == file + 1
    ensures Run(SetFile(r, file) + rest, m) == Run(rest, m.(file := r.file + 1))
  {
    hide Run, Uleb;
    if r.file == file {
      assert [] + rest == rest;
    } else {
      var p := [4] + Uleb(r.file + 1) + rest;
      assert SetFile(r, file) + rest == p && p[1..] == Uleb(r.file + 1) + rest;
      UlebBack(r.file + 1, rest);
      RunUnsigned(p, m);
    }
  }

  lemma RunAdvancePc(delta: nat, rest: Bytes, m: Regs)
    ensures Run(AdvancePc(delta) + rest, m) == Run(rest, m.(addr := m.addr + delta))
  {
    hide Run, Uleb;
    if delta == 0 {
      assert [] + rest == rest;
    } else {
      var p := [2] + Uleb(delta) + rest;
      assert AdvancePc(delta) + rest == p && p[1..] == Uleb(delta) + rest;
      UlebBack(delta, rest);
      RunUnsigned(p, m);
    }
  }

  lemma RunAdvanceLine(delta: int, rest: Bytes, m: Regs)
    ensures Run(AdvanceLine(delta) + rest, m) == Run(rest, m.(line := m.line + delta))
  {
    hide Run, Sleb;
    if delta == 0 {
      assert [] + rest == rest;
    } else {
      var p := [3] + (Sleb(delta) + rest);
      assert AdvanceLine(delta) + rest == p && p[1..] == Sleb(delta) + rest;
      SlebBack(delta, rest);
      RunThree(p, m);
    }
  }

  lemma RunThree(p: Bytes, m: Regs)
    requires p != [] && p[0] == 3
    ensures var r := ReadSleb(p[1..]); Run(p, m) == if r.None? then None
        else Run(r.value.rest, m.(line := m.line + r.value.v))
  {}

  lemma RunCopy(rest: Bytes, m: Regs)
    ensures Run([1] + rest, m) == Prepend(Emit(m, false), Run(rest, m))
  {
    assert ([1] + rest)[1..] == rest;
  }

  lemma RunSetAddress(addr: nat, rest: Bytes, m: Regs)
    requires addr < Bound(8)
    ensures Run(SetAddress(addr) + rest, m) == Run(rest, m.(addr := addr))
  {
    hide Run, Uleb, ReadUleb, Le, Num, Bound;
    var p := SetAddress(addr) + rest;
    var s := [2] + Le(addr, 8) + rest;
    assert p[1..] == Uleb(9) + s;
    UlebBack(9, s);
    NumLe(addr, 8);
    assert s[1..9] == Le(addr, 8) && s[9..] == rest;
    RunExtended(p, m);
  }

  lemma RunExtended(p: Bytes, m: Regs)
    requires p != [] && p[0] == 0
    ensures Run(p, m) == Extended(p, m)
  {}

  lemma RunEnd(m: Regs)
    ensures Run([0] + Uleb(1) + [1], m) == Some([Emit(m, true)])
  {
    hide Run;
    var p := [0] + Uleb(1) + [1];
    var s: Bytes := [1];
    assert p[1..] == Uleb(1) + s;
    UlebBack(1, s);
    RunExtended(p, m);
    RunNothing();
    assert s[1..] == [];
    assert Extended(p, m) == Prepend(Emit(m, true), Run([], FRESH));
    assert [Emit(m, true)] + [] == [Emit(m, true)];
  }

  lemma RunNothing()
    ensures Run([], FRESH) == Some([])
  {}

  /** The opcodes of one row. */
  lemma RunRow(r: Mark, vaddr: nat, addr: nat, line: nat, file: nat, tail: Bytes)
    requires addr <= r.addr
    ensures var m := Regs(vaddr + r.addr, r.file + 1, r.line);
      Run(SetFile(r, file) + AdvancePc(r.addr - addr) + AdvanceLine(r.line - line) + [1]
          + tail, Regs(vaddr + addr, file + 1, line)) == Prepend(Emit(m, false), Run(tail, m))
  {
    hide Run, SetFile, AdvancePc, AdvanceLine;
    var c1, c2, c3 := SetFile(r, file), AdvancePc(r.addr - addr), AdvanceLine(r.line - line);
    var m := Regs(vaddr + addr, file + 1, line);
    Regroup(c1, c2, c3, tail);
    RunSetFile(r, file, c2 + (c3 + ([1] + tail)), m);
    var m1 := m.(file := r.file + 1);
    RunAdvancePc(r.addr - addr, c3 + ([1] + tail), m1);
    var m2 := m1.(addr := vaddr + r.addr);
    RunAdvanceLine(r.line - line, [1] + tail, m2);
    RunCopy(tail, m2.(line := r.line));
  }

  lemma Regroup(a: Bytes, b: Bytes, c: Bytes, d: Bytes)
    ensures a + b + c + [1] + d == a + (b + (c + ([1] + d)))
  {}

  /** The opcodes yield the rows, one each, and leave the machine at the last one. */
  lemma {:induction false} RunOpcodes(rows: seq<Mark>, vaddr: nat, addr: nat, line: nat, file: nat, rest: Bytes)
    requires Rising(rows) && (rows != [] ==> addr <= rows[0].addr)
    ensures var n := |rows|;
      var m := if rows == [] then Regs(vaddr + addr, file + 1, line)
          else Regs(vaddr + rows[n - 1].addr, rows[n - 1].file + 1, rows[n - 1].line);
      Run(Opcodes(rows, addr, line, file) + rest, Regs(vaddr + addr, file + 1, line)) ==
        if Run(rest, m).None? then None else Some(Shifted(rows, vaddr) + Run(rest, m).value)
    decreases |rows|
  {
    hide Run, SetFile, AdvancePc, AdvanceLine;
    var m := Regs(vaddr + addr, file + 1, line);
    if rows == [] {
      assert Opcodes(rows, addr, line, file) + rest == rest;
      if Run(rest, m).Some? { assert Shifted(rows, vaddr) + Run(rest, m).value == Run(rest, m).value; }
    } else {
      var r := rows[0];
      var tail := Opcodes(rows[1..], r.addr, r.line, r.file);
      var head := SetFile(r, file) + AdvancePc(r.addr - addr) + AdvanceLine(r.line - line) + [1];
      assert Opcodes(rows, addr, line, file) + rest == head + (tail + rest);
      RunRow(r, vaddr, addr, line, file, tail + rest);
      RunOpcodes(rows[1..], vaddr, r.addr, r.line, r.file, rest);
      ShiftedCons(rows, vaddr);
      Associate(Row(vaddr + r.addr, r.file + 1, r.line, false), Shifted(rows[1..], vaddr));
    }
  }

  lemma Associate(x: Row, a: seq<Row>)
    ensures forall b: seq<Row> :: [x] + (a + b) == ([x] + a) + b
  {
    forall b: seq<Row> ensures [x] + (a + b) == ([x] + a) + b {}
  }

  lemma ShiftedCons(rows: seq<Mark>, vaddr: nat)
    requires rows != []
    ensures Shifted(rows, vaddr) == [Row(vaddr + rows[0].addr, rows[0].file + 1, rows[0].line, false)]
        + Shifted(rows[1..], vaddr)
  {}

  /** The whole program: the recorded rows, shifted to where the text is loaded, and an end at the end
      of the text, which is where it should be exactly when no row lies behind the text. */
  lemma ProgramRuns(rows: seq<Mark>, vaddr: nat, size: nat)
    requires Rising(rows) && vaddr < Bound(8)
    ensures var last := LastAddr(rows);
      var r := Run(Program(rows, vaddr, size), FRESH);
      && r.Some? && |r.value| == |rows| + 1 && r.value[..|rows|] == Shifted(rows, vaddr)
      && r.value[|rows|].end && r.value[|rows|].addr == vaddr + (if size > last then size else last)
      && (r.value[|rows|].addr == vaddr + size <==> last <= size)
  {
    hide Run, Opcodes, SetAddress, Uleb;
    var ops, end := Opcodes(rows, 0, 1, 0), EndSequence(size - LastAddr(rows));
    assert Program(rows, vaddr, size) == SetAddress(vaddr) + (ops + end);
    RunSetAddress(vaddr, ops + end, FRESH);
    RunOpcodes(rows, vaddr, 0, 1, 0, end);
    var n := |rows|;
    var m := if rows == [] then Regs(vaddr, 1, 1)
        else Regs(vaddr + rows[n - 1].addr, rows[n - 1].file + 1, rows[n - 1].line);
    EndRuns(size - LastAddr(rows), m);
  }

  lemma EndRuns(advance: int, m: Regs)
    ensures Run(EndSequence(advance), m) == Some([Emit(m.(addr := m.addr + if advance > 0 then advance else 0), true)])
  {
    hide Run, Uleb;
    var delta := if advance > 0 then advance else 0;
    var end := [0] + Uleb(1) + [1];
    assert EndSequence(advance) == AdvancePc(delta) + end;
    RunAdvancePc(delta, end, m);
    RunEnd(m.(addr := m.addr + delta));
  }

  // ----- the unit -----

  /** The file table: paths, NUL-terminated, each followed by three zeros. */
  function FileNames(paths: seq<Bytes>): Bytes {
    if paths == [] then [] else paths[0] + [0] + Uleb(0) + Uleb(0) + Uleb(0) + FileNames(paths[1..])
  }

  /** Argument counts of the standard opcodes 1 to 12. */
  const OPCODE_LENGTHS: Bytes := [0, 1, 1, 1, 1, 0, 0, 0, 1, 0, 0, 1]

  /** What header_length counts. */
  function HeaderRest(paths: seq<Bytes>): Bytes {
    [1, 1, 1, 251, 14, 13] + OPCODE_LENGTHS + [0] + FileNames(paths) + [0]
  }

  function AfterLength(paths: seq<Bytes>, program: Bytes): Bytes {
    Le(4, 2) + Le(|HeaderRest(paths)|, 4) + HeaderRest(paths) + program
  }

  function Unit(paths: seq<Bytes>, program: Bytes): Bytes {
    Le(|AfterLength(paths, program)|, 4) + AfterLength(paths, program)
  }

  /** Up to the first NUL. */
  function ReadString(s: Bytes): (r: Option<(Bytes, Bytes)>)
    ensures r.Some? ==> |r.value.1| < |s|
  {
    if s == [] then None
    else if s[0] == 0 then Some(([], s[1..]))
    else
      match ReadString(s[1..])
      case None => None
      case Some((a, rest)) => Some(([s[0]] + a, rest))
  }

  /** A file table as section 6.2.4 describes it, up to the byte that ends it. */
  function ReadNames(s: Bytes): Option<(seq<Bytes>, Bytes)>
    decreases |s|
  {
    if s == [] then None
    else if s[0] == 0 then Some(([], s[1..]))
    else
      var name := ReadString(s);
      if name.None? then None
      else
        var rest := SkipUlebs(name.value.1, 3);
        if rest.None? then None
        else
          match ReadNames(rest.value)
          case None => None
          case Some((names, end)) => Some(([name.value.0] + names, end))
  }

  function SkipUlebs(s: Bytes, n: nat): (r: Option<Bytes>)
    ensures r.Some? ==> |r.value| <= |s|
    decreases n
  {
    if n == 0 then Some(s)
    else
      match ReadUleb(s)
      case None => None
      case Some(r) => SkipUlebs(r.rest, n - 1)
  }

  lemma {:induction false} StringBack(a: Bytes, rest: Bytes)
    requires 0 !in a
    ensures ReadString(a + [0] + rest) == Some((a, rest))
    decreases a
  {
    var s := a + [0] + rest;
    if a == [] {
      assert s[1..] == rest;
    } else {
      StringBack(a[1..], rest);
      assert s[1..] == a[1..] + [0] + rest && [a[0]] + a[1..] == a;
    }
  }

  lemma {:induction false} NamesBack(paths: seq<Bytes>, rest: Bytes)
    requires forall i :: 0 <= i < |paths| ==> paths[i] != [] && 0 !in paths[i]
    ensures ReadNames(FileNames(paths) + [0] + rest) == Some((paths, rest))
    decreases paths
  {
    hide ReadString;
    var s := FileNames(paths) + [0] + rest;
    if paths == [] {
      assert s[1..] == rest;
    } else {
      var more := FileNames(paths[1..]) + [0] + rest;
      var zeros: Bytes := [0, 0, 0];
      assert Uleb(0) + Uleb(0) + Uleb(0) == zeros;
      assert s == paths[0] + [0] + (zeros + more);
      StringBack(paths[0], zeros + more);
      SkipThree(more);
      assert s[0] == paths[0][0];
      NamesBack(paths[1..], rest);
      assert [paths[0]] + paths[1..] == paths;
    }
  }

  lemma SkipThree(rest: Bytes)
    ensures SkipUlebs([0, 0, 0] + rest, 3) == Some(rest)
  {
    var s: Bytes := [0, 0, 0] + rest;
    var s1: Bytes, s2: Bytes := [0, 0] + rest, [0] + rest;
    assert s[1..] == s1 && s1[1..] == s2 && s2[1..] == rest;
    assert ReadUleb(s) == Some(Read(0, s1)) && ReadUleb(s1) == Some(Read(0, s2)) && ReadUleb(s2) == Some(Read(0, rest));
    assert SkipUlebs(s2, 1) == Some(rest) && SkipUlebs(s1, 2) == Some(rest);
  }

  /** The bytes of the header that are the same in every unit, and the file table behind them. */
  lemma UnitFixed(paths: seq<Bytes>, program: Bytes)
    ensures var u := Unit(paths, program);
      && |u| >= 29 && u[10..] == HeaderRest(paths) + program && u[10..16] == [1, 1, 1, 251, 14, 13]
      && u[16..28] == [0, 1, 1, 1, 1, 0, 0, 0, 1, 0, 0, 1] && u[28] == 0
      && u[29..] == FileNames(paths) + [0] + program
  {
    hide Le, FileNames;
    var u, h := Unit(paths, program), HeaderRest(paths);
    assert u[10..] == h + program;
    assert u[10..16] == h[..6];
    assert u[16..28] == h[6..18] && u[28] == h[18];
  }

  /** A reader of the unit finds its length, the version, the parameters of the line program, the number of
      arguments of each of the twelve standard opcodes (section 6.2.5.2), no directories, the files in
      order, and the program. */
  lemma UnitReads(paths: seq<Bytes>, program: Bytes)
    requires |AfterLength(paths, program)| < Bound(4)
    ensures var u := Unit(paths, program);
      && |u| >= 10 && Num(u[..4]) == |u| - 4 && Num(u[4..6]) == 4
      && (var at := 10 + Num(u[6..10]); at <= |u| && u[at..] == program)
      && u[10..16] == [1, 1, 1, 251, 14, 13]
      && u[16..28] == [0, 1, 1, 1, 1, 0, 0, 0, 1, 0, 0, 1] && u[28] == 0
      && ((forall i :: 0 <= i < |paths| ==> paths[i] != [] && 0 !in paths[i])
          ==> ReadNames(u[29..]) == Some((paths, program)))
  {
    hide Le, FileNames, ReadNames, Num, Bound;
    UnitFixed(paths, program);
    hide HeaderRest;
    var h := HeaderRest(paths);
    var all := AfterLength(paths, program);
    var u := Unit(paths, program);
    assert u[..4] == Le(|all|, 4) && u[4..6] == Le(4, 2) && u[6..10] == Le(|h|, 4) && u[10..] == h + program;
    NumLe(|all|, 4);
    assert 4 < Bound(2) by { Bounds(); }
    NumLe(4, 2);
    NumLe(|h|, 4);
    assert u[10 + |h|..] == program;
    if forall i :: 0 <= i < |paths| ==> paths[i] != [] && 0 !in paths[i] { NamesBack(paths, program); }
  }

  // ----- the writer -----

  lemma NoRows(addr: nat, line: nat, file: nat)
    ensures Rising([]) && Opcodes([], addr, line, file) == []
  {}

  lemma RowsStep(rows: seq<Mark>, i: nat, addr: nat, line: nat, file: nat, done: Bytes)
    requires i < |rows| && Rising(rows[i..]) && addr <= rows[i].addr
    ensures var r := rows[i];
      && Rising(rows[i + 1..]) && (i + 1 < |rows| ==> r.addr <= rows[i + 1].addr)
      && done + Opcodes(rows[i..], addr, line, file) == (done + RowCode(r, addr, line, file))
          + Opcodes(rows[i + 1..], r.addr, r.line, r.file)
  {
    hide RowCode;
    var s := rows[i..];
    assert s[0] == rows[i] && s[1..] == rows[i + 1..];
    if i + 1 < |rows| { assert s[1] == rows[i + 1]; }
    assert done + (RowCode(s[0], addr, line, file) + Opcodes(s[1..], s[0].addr, s[0].line, s[0].file))
        == (done + RowCode(s[0], addr, line, file)) + Opcodes(s[1..], s[0].addr, s[0].line, s[0].file);
  }

  lemma SlebStep(v: int, done: Bytes)
    ensures var b, w := v % 128, v / 128;
      if (w == 0 && b < 64) || (w == -1 && b >= 64) then done + Sleb(v) == done + [b]
      else done + Sleb(v) == (done + [b + 128]) + Sleb(w) && (if w < 0 then -w else w) < (if v < 0 then -v else v)
  {}

  class Writer {
    var data: Bytes
    var rows: seq<Mark>

    constructor ()
      ensures data == [] && rows == []
    {
      data, rows := [], [];
    }

    /** Rows were recorded as the code grew to n bytes. */
    ghost predicate Valid(n: nat)
      reads this
    {
      Rising(rows) && (rows != [] ==> rows[|rows| - 1].addr <= n)
    }

    /** At the start of a statement, when n bytes of code have been emitted. */
    method LineMark(n: nat, file: nat, line: nat)
      requires Valid(n)
      modifies this`rows
      ensures Valid(n) && rows == Marked(old(rows), n, file, line)
      ensures forall a :: a >= n ==>
        RowAt(rows, a).Some? && RowAt(rows, a).value.file == file && RowAt(rows, a).value.line == line
      ensures forall a :: a < n ==> RowAt(rows, a) == RowAt(old(rows), a)
    {
      MarkedOk(rows, n, file, line);
      if rows != [] {
        var tail := rows[|rows| - 1];
        if tail.file == file && tail.line == line { return; }
        if tail.addr == n {
          rows := rows[..|rows| - 1] + [Mark(n, file, line)];
          return;
        }
      }
      rows := rows + [Mark(n, file, line)];
    }

    method Put(s: Bytes)
      modifies this`data
      ensures data == old(data) + s
    {
      data := data + s;
    }

    method Patch32(at: nat, v: nat)
      requires at + 4 <= |data|
      modifies this`data
      ensures data == old(data)[..at] + Le(v, 4) + old(data)[at + 4..]
    {
      data := data[..at] + Le(v, 4) + data[at + 4..];
    }

    method PutUleb(v0: nat)
      modifies this`data
      ensures data == old(data) + Uleb(v0)
    {
      var v := v0;
      var more := true;
      ghost var done: Bytes := [];
      while more
        invariant data == old(data) + done && (if more then done + Uleb(v) == Uleb(v0) else done == Uleb(v0))
        decreases more, v
      {
        var b := v % 128;
        ghost var rest := Uleb(v);
        v := v / 128;
        if v == 0 { more := false; } else { b := b + 128; }
        assert rest == [b] + (if more then Uleb(v) else []);
        assert done + ([b] + (if more then Uleb(v) else [])) == (done + [b]) + (if more then Uleb(v) else []);
        done := done + [b];
        data := data + [b];
        if v == 0 { assert done + [] == done; }
      }
    }

    method PutSleb(v0: int)
      modifies this`data
      ensures data == old(data) + Sleb(v0)
    {
      hide Sleb;
      var v := v0;
      var more := true;
      ghost var done: Bytes := [];
      while more
        invariant data == old(data) + done && (if more then done + Sleb(v) == Sleb(v0) else done == Sleb(v0))
        decreases more, if v < 0 then -v else v
      {
        var b := v % 128;
        SlebStep(v, done);
        v := v / 128;
        if (v == 0 && b < 64) || (v == -1 && b >= 64) { more := false; } else { b := b + 128; }
        done := done + [b];
        data := data + [b];
      }
    }

    method PutHeader(paths: seq<Bytes>) returns (hlenAt: nat)
      requires data == []
      modifies this`data
      ensures hlenAt == 6 && data == Le(0, 4) + Le(4, 2) + Le(0, 4) + HeaderRest(paths)
    {
      hide Le, Uleb, FileNames;
      Put(Le(0, 4));
      Put(Le(4, 2));
      hlenAt := |data|;
      Put(Le(0, 4));
      Put([1, 1, 1, 251, 14, 13]);
      Put(OPCODE_LENGTHS);
      Put([0]);
      ghost var was := data;
      PutNames(paths);
      Put([0]);
      assert data == Le(0, 4) + Le(4, 2) + Le(0, 4)
          + ([1, 1, 1, 251, 14, 13] + OPCODE_LENGTHS + [0] + FileNames(paths) + [0]);
    }

    method PutNames(paths: seq<Bytes>)
      modifies this`data
      ensures data == old(data) + FileNames(paths)
    {
      hide Uleb, FileNames;
      ghost var done: Bytes := [];
      NoNames(paths);
      for i := 0 to |paths|
        invariant data == old(data) + done && done + FileNames(paths[i..]) == FileNames(paths)
      {
        Put(paths[i]);
        Put([0]);
        PutUleb(0);
        PutUleb(0);
        PutUleb(0);
        ghost var item := paths[i] + [0] + Uleb(0) + Uleb(0) + Uleb(0);
        NamesStep(paths, i, done, item);
        done := done + item;
      }
      NoNames(paths);
      assert done + [] == done;
    }

    lemma NoNames(paths: seq<Bytes>)
      ensures paths[0..] == paths && [] + FileNames(paths) == FileNames(paths) && FileNames(paths[|paths|..]) == []
    {}

    lemma NamesStep(paths: seq<Bytes>, i: nat, done: Bytes, item: Bytes)
      requires i < |paths| && item == paths[i] + [0] + Uleb(0) + Uleb(0) + Uleb(0)
      ensures done + FileNames(paths[i..]) == (done + item) + FileNames(paths[i + 1..])
    {
      hide Uleb;
      assert paths[i..][0] == paths[i] && paths[i..][1..] == paths[i + 1..];
      assert done + (item + FileNames(paths[i + 1..])) == (done + item) + FileNames(paths[i + 1..]);
    }

    method PutSetAddress(addr: nat)
      modifies this`data
      ensures data == old(data) + SetAddress(addr)
    {
      hide Uleb, Le;
      Put([0]);
      PutUleb(9);
      Put([2]);
      Put(Le(addr, 8));
    }

    method PutEndSequence(advance: int)
      modifies this`data
      ensures data == old(data) + EndSequence(advance)
    {
      hide Uleb;
      if advance > 0 {
        Put([2]);
        PutUleb(advance);
      }
      Put([0]);
      PutUleb(1);
      Put([1]);
    }

    /** The opcodes of one row. */
    method PutRow(r: Mark, addr: nat, line: nat, file: nat)
      requires addr <= r.addr
      modifies this`data
      ensures data == old(data) + RowCode(r, addr, line, file)
    {
      hide SetFile, AdvancePc, AdvanceLine;
      PutSetFile(r, file);
      PutAdvancePc(r.addr - addr);
      PutAdvanceLine(r.line - line);
      Put([1]);
    }

    method PutSetFile(r: Mark, file: nat)
      modifies this`data
      ensures data == old(data) + SetFile(r, file)
    {
      if r.file != file {
        Put([4]);
        PutUleb(r.file + 1);
      }
    }

    method PutAdvancePc(delta: nat)
      modifies this`data
      ensures data == old(data) + AdvancePc(delta)
    {
      if delta != 0 {
        Put([2]);
        PutUleb(delta);
      }
    }

    method PutAdvanceLine(delta: int)
      modifies this`data
      ensures data == old(data) + AdvanceLine(delta)
    {
      if delta != 0 {
        Put([3]);
        PutSleb(delta);
      }
    }

    /** All rows; returns the last address. */
    method PutRows() returns (addr: nat)
      requires Rising(rows)
      modifies this`data
      ensures data == old(data) + Opcodes(rows, 0, 1, 0) && addr == LastAddr(rows)
    {
      hide SetFile, AdvancePc, AdvanceLine, Opcodes, Rising, RowCode;
      var line: nat, file: nat, i: nat := 1, 0, 0;
      addr := 0;
      ghost var done: Bytes := [];
      assert rows[0..] == rows;
      while i < |rows|
        invariant i <= |rows| && data == old(data) + done && addr == (if i == 0 then 0 else rows[i - 1].addr)
        invariant Rising(rows[i..]) && (i < |rows| ==> addr <= rows[i].addr)
            && done + Opcodes(rows[i..], addr, line, file) == Opcodes(rows, 0, 1, 0)
      {
        var r := rows[i];
        RowsStep(rows, i, addr, line, file, done);
        PutRow(r, addr, line, file);
        done := done + RowCode(r, addr, line, file);
        addr, line, file := r.addr, r.line, r.file;
        i := i + 1;
      }
      assert done + Opcodes([], addr, line, file) == done by { NoRows(addr, line, file); }
    }

    /** The whole section for one unit. */
    method BuildLine(paths: seq<Bytes>, vaddr: nat, size: nat)
      requires data == [] && Rising(rows)
      modifies this`data
      ensures data == Unit(paths, Program(rows, vaddr, size))
    {
      hide Le, Uleb, FileNames, Opcodes, SetAddress, EndSequence, HeaderRest, Unit, AfterLength, Program;
      var hlenAt := PutHeader(paths);
      ghost var h := HeaderRest(paths);
      Patch32(hlenAt, |data| - (hlenAt + 4));
      HeaderPatched(h);
      PutSetAddress(vaddr);
      var addr := PutRows();
      PutEndSequence(size - addr);
      Assembled(paths, rows, vaddr, size);
      UnitPatched(paths, Program(rows, vaddr, size));
      Patch32(0, |data| - 4);
    }
  }

  /** The pieces in order, before the unit's length is known. */
  lemma Assembled(paths: seq<Bytes>, rows: seq<Mark>, vaddr: nat, size: nat)
    requires Rising(rows)
    ensures var h := HeaderRest(paths);
      Le(0, 4) + Le(4, 2) + Le(|h|, 4) + h + SetAddress(vaddr) + Opcodes(rows, 0, 1, 0)
          + EndSequence(size - LastAddr(rows))
      == Le(0, 4) + AfterLength(paths, Program(rows, vaddr, size))
  {
    hide Le, Opcodes, SetAddress, EndSequence, HeaderRest, Rising;
  }

  lemma UnitPatched(paths: seq<Bytes>, program: Bytes)
    ensures var d := Le(0, 4) + AfterLength(paths, program);
      |d| >= 4 && d[..0] + Le(|d| - 4, 4) + d[4..] == Unit(paths, program)
  {
    hide Le, AfterLength;
  }

  lemma HeaderPatched(h: Bytes)
    ensures var d := Le(0, 4) + Le(4, 2) + Le(0, 4) + h;
      |d| == 10 + |h| && d[..6] + Le(|h|, 4) + d[10..] == Le(0, 4) + Le(4, 2) + Le(|h|, 4) + h
  {
    hide Le;
    var d := Le(0, 4) + Le(4, 2) + Le(0, 4) + h;
    assert d[..6] == Le(0, 4) + Le(4, 2) && d[10..] == h;
  }
}
