/**
 A small-step AArch64 machine: x0 to x30, sp, the flags and memory. It follows the pseudocode of Arm DDI 0487 for
 the instruction forms that the JIT emits; every other form, and every access that is not 4-aligned or leaves the
 64-bit address space, stops the machine.
 */
module Machine {
  import opened Isa
  import opened Numbers

  /** Memory as 4-byte cells, by the address of their lowest byte; a cell never written reads as zero. */
  type Mem = map<int, U32>

  function Peek(m: Mem, a: int): U32 { if a in m then m[a] else 0 }

  function Load(m: Mem, a: int, wide: bool): U64 {
    if wide then Peek(m, a) + 0x1_0000_0000 * Peek(m, a + 4) else Peek(m, a)
  }

  function Store(m: Mem, a: int, wide: bool, v: U64): Mem {
    if wide then m[a := v % 0x1_0000_0000][a + 4 := v / 0x1_0000_0000] else m[a := v % 0x1_0000_0000]
  }

  type Regs = r: seq<U64> | |r| == 31 witness seq(31, _ => 0)

  datatype State = State(pc: int, regs: Regs, sp: U64, n: bool, z: bool, c: bool, v: bool, mem: Mem)

  /** Register `r`, with 31 the zero register. */
  function X(s: State, r: nat): U64 { if r < 31 then s.regs[r] else 0 }

  /** Register `r`, with 31 the stack pointer. */
  function XSp(s: State, r: nat): U64 { if r < 31 then s.regs[r] else s.sp }

  /** The operand of an instruction of the given width. */
  function Part(x: U64, wide: bool): U64 { if wide then x else x % 0x1_0000_0000 }

  function SetX(s: State, r: nat, x: U64): State { if r < 31 then s.(regs := s.regs[r := x]) else s }

  function SetXSp(s: State, r: nat, x: U64): State { if r < 31 then s.(regs := s.regs[r := x]) else s.(sp := x) }

  datatype Sum = Sum(result: int, n: bool, z: bool, c: bool, v: bool)

  /** `AddWithCarry` of the Arm pseudocode. */
  function AddWithCarry(x: int, y: int, carry: int, wide: bool): (r: Sum)
    ensures 0 <= r.result < Span(wide)
  {
    var unsigned := x + y + carry;
    var signed := SInt(x, wide) + SInt(y, wide) + carry;
    var result := Wrap(unsigned, wide);
    Sum(result, 2 * result >= Span(wide), result == 0, result != unsigned, SInt(result, wide) != signed)
  }

  /** `x + y`, or `x - y` as the sum of `x`, the complement of `y` and one. */
  function AddSub(x: int, y: int, sub: bool, wide: bool): (r: Sum)
    ensures 0 <= r.result < Span(wide)
  {
    if sub then AddWithCarry(x, Span(wide) - 1 - y, 1, wide) else AddWithCarry(x, y, 0, wide)
  }

  /** What an addition or subtraction leaves in its register, flags or not. */
  lemma AddSubResult(x: int, y: int, wide: bool)
    ensures AddSub(x, y, false, wide).result == Wrap(x + y, wide)
    ensures AddSub(x, y, true, wide).result == Wrap(x - y, wide)
  {
    hide Wrap, SInt;
    WrapSpan(x - y, wide);
    assert x + (Span(wide) - 1 - y) + 1 == x - y + Span(wide);
  }

  lemma WrapSpan(a: int, wide: bool)
    ensures Wrap(a + Span(wide), wide) == Wrap(a, wide)
  {}

  function SetFlags(s: State, r: Sum): State { s.(n := r.n, z := r.z, c := r.c, v := r.v) }

  /** The condition table of section C1.2.4 of Arm DDI 0487. */
  function CondHolds(cond: nat, s: State): bool {
    match cond
    case 0 => s.z
    case 1 => !s.z
    case 2 => s.c
    case 3 => !s.c
    case 4 => s.n
    case 5 => !s.n
    case 6 => s.v
    case 7 => !s.v
    case 8 => s.c && !s.z
    case 9 => !s.c || s.z
    case 10 => s.n == s.v
    case 11 => s.n != s.v
    case 12 => !s.z && s.n == s.v
    case 13 => s.z || s.n != s.v
    case _ => true
  }

  /** UDIV and SDIV: a zero divisor gives zero. */
  function Quotient(a: int, b: int, signed: bool, wide: bool): (q: int)
    ensures 0 <= q < Span(wide)
  {
    if b == 0 then 0
    else if signed then (if SInt(b, wide) == 0 then 0 else Wrap(TruncDiv(SInt(a, wide), SInt(b, wide)), wide))
    else Wrap(a / b, wide)
  }

  /** The parts of a number above and below a power of two. */
  lemma Cut(x: U64, p: nat)
    requires p == 0x1_0000 || p == 0x1_0000_0000 || p == 0x1_0000_0000_0000
    ensures 0 <= x / p * p <= 0x1_0000_0000_0000_0000 - p && 0 <= x % p < p
  {}

  /** MOVK: `imm` replaces the 16 bits of `x` at half-word `hw`. */
  function Insert(x: U64, imm: nat, hw: nat): (r: int)
    ensures imm < 0x1_0000 && hw < 4 ==> 0 <= r < 0x1_0000_0000_0000_0000
  {
    Cut(x, 0x1_0000);
    Cut(x, 0x1_0000_0000);
    Cut(x, 0x1_0000_0000_0000);
    match hw
    case 0 => x / 0x1_0000 * 0x1_0000 + imm
    case 1 => x / 0x1_0000_0000 * 0x1_0000_0000 + imm * 0x1_0000 + x % 0x1_0000
    case 2 => x / 0x1_0000_0000_0000 * 0x1_0000_0000_0000 + imm * 0x1_0000_0000 + x % 0x1_0000_0000
    case _ => imm * 0x1_0000_0000_0000 + x % 0x1_0000_0000_0000
  }

  /** Whether a memory access is one the machine performs. */
  predicate Allowed(a: int, size: int) { a % 4 == 0 && 0 <= a && a + size <= 0x1_0000_0000_0000_0000 }

  function Size(wide: bool): int { if wide then 8 else 4 }

  /** The sum or difference, and the state with the flags set when they are. */
  function AddSubEffect(s: State, wide: bool, sub: bool, setFlags: bool, x: U64, y: U64): (State, U64) {
    var a, b := Part(x, wide), Part(y, wide);
    if setFlags then
      var r := AddSub(a, b, sub, wide);
      (SetFlags(s, r), r.result)
    else (s, if sub then Wrap(a as int - b, wide) else Wrap(a as int + b, wide))
  }

  /** Setting the flags does not change the sum or difference. */
  lemma FlagsOrNot(s: State, wide: bool, sub: bool, x: U64, y: U64)
    ensures AddSubEffect(s, wide, sub, true, x, y).1 == AddSubEffect(s, wide, sub, false, x, y).1
  {
    hide AddSub, Wrap;
    AddSubResult(Part(x, wide), Part(y, wide), wide);
  }

  /** A load to register `rt`, or a store from it; nothing for an address the machine does not access. */
  function Transfer(s: State, wide: bool, load: bool, rt: nat, a: int): Option<State> {
    if !Allowed(a, Size(wide)) then None
    else if load then Some(SetX(s, rt, Load(s.mem, a, wide)))
    else Some(s.(mem := Store(s.mem, a, wide, X(s, rt))))
  }

  /** LDP and STP. */
  function TransferPair(s: State, wide: bool, load: bool, rt: nat, rt2: nat, rn: nat, scaled: int,
      mode: Mode): Option<State> {
    var moved := (XSp(s, rn) + scaled * Size(wide)) % 0x1_0000_0000_0000_0000;
    var a := if mode.PostIndex? then XSp(s, rn) else moved;
    if mode.UnsignedOffset? || !Allowed(a, 2 * Size(wide)) then None
    else
      var t := if load then SetX(SetX(s, rt, Load(s.mem, a, wide)), rt2, Load(s.mem, a + Size(wide), wide))
               else s.(mem := Store(Store(s.mem, a, wide, X(s, rt)), a + Size(wide), wide, X(s, rt2)));
      Some(if mode.SignedOffset? then t else SetXSp(t, rn, moved))
  }

  function MovEffect(s: State, wide: bool, kind: MovKind, rd: nat, imm: nat, hw: nat): Option<State> {
    if kind.MovN? || imm >= 0x1_0000 || hw >= (if wide then 4 else 2) then None
    else if kind.MovZ? then Some(SetX(s, rd, Insert(0, imm, hw)))
    else Some(SetX(s, rd, Insert(Part(X(s, rd), wide), imm, hw)))
  }

  /** The effect of an instruction other than a branch; the pc is left to `Next`. */
  function Effect(i: Instr, s: State): Option<State> {
    match i
    case Nop => Some(s)
    case AddSubReg(wide, sub, setFlags, rd, rn, rm, shift, amount) =>
      var (t, r) := AddSubEffect(s, wide, sub, setFlags, X(s, rn), X(s, rm));
      if amount != 0 then None else Some(SetX(t, rd, r))
    case AddSubImm(wide, sub, setFlags, rd, rn, imm, shifted) =>
      if shifted || imm >= 4096 then None
      else
        var (t, r) := AddSubEffect(s, wide, sub, setFlags, XSp(s, rn), imm);
        Some(if setFlags then SetX(t, rd, r) else SetXSp(t, rd, r))
    case Mul(wide, rd, rn, rm) => Some(SetX(s, rd, Wrap(Part(X(s, rn), wide) as int * Part(X(s, rm), wide), wide)))
    case Div(wide, signed, rd, rn, rm) =>
      Some(SetX(s, rd, Quotient(Part(X(s, rn), wide), Part(X(s, rm), wide), signed, wide)))
    case MovReg(wide, rd, rm) => Some(SetX(s, rd, Part(X(s, rm), wide)))
    case MovWide(wide, kind, rd, imm, hw) => MovEffect(s, wide, kind, rd, imm, hw)
    case Pair(wide, load, rt, rt2, rn, scaled, mode) => TransferPair(s, wide, load, rt, rt2, rn, scaled, mode)
    case LdStImm(wide, load, rt, rn, off, mode) =>
      if mode.UnsignedOffset? then Transfer(s, wide, load, rt,
          (XSp(s, rn) + off * Size(wide)) % 0x1_0000_0000_0000_0000) else None
    case LdStReg(wide, load, rt, rn, rm) => Transfer(s, wide, load, rt,
        (XSp(s, rn) + X(s, rm)) % 0x1_0000_0000_0000_0000)
    case Csel(wide, rd, rn, rm, cond) =>
      Some(SetX(s, rd, Part(if CondHolds(cond, s) then X(s, rn) else X(s, rm), wide)))
    case _ => None
  }

  /** One instruction other than a branch. */
  function Next(i: Instr, s: State): Option<State> {
    match Effect(i, s)
    case None => None
    case Some(t) => Some(t.(pc := s.pc + 4))
  }

  /** The code of a program and the address it is loaded at. */
  datatype Program = Program(base: int, code: seq<Instr>)

  predicate InCode(p: Program, pc: int) {
    0 <= pc - p.base < 4 * |p.code| && (pc - p.base) % 4 == 0
  }

  function Step(p: Program, s: State): Option<State> {
    if !InCode(p, s.pc) then None
    else
      var i := p.code[(s.pc - p.base) / 4];
      match i
      case Branch(link, dist) =>
        Some((if link then SetX(s, 30, (s.pc + 4) % 0x1_0000_0000_0000_0000) else s).(pc := s.pc + 4 * dist))
      case BranchCond(cond, dist) => Some(s.(pc := if CondHolds(cond, s) then s.pc + 4 * dist else s.pc + 4))
      case BranchReg(jump, rn) =>
        Some((if jump.Blr? then SetX(s, 30, (s.pc + 4) % 0x1_0000_0000_0000_0000) else s).(pc := X(s, rn)))
      case _ => Next(i, s)
  }

  /** `n` steps. */
  function Run(p: Program, s: State, n: nat): Option<State>
    decreases n
  {
    if n == 0 then Some(s)
    else
      match Step(p, s)
      case None => None
      case Some(t) => Run(p, t, n - 1)
  }

  lemma {:induction false} RunAdd(p: Program, s: State, m: nat, n: nat)
    requires Run(p, s, m).Some?
    ensures Run(p, s, m + n) == Run(p, Run(p, s, m).value, n)
    decreases m
  {
    if m > 0 {
      RunAdd(p, Step(p, s).value, m - 1, n);
    }
  }

  /** The machine gets from `s` to `t` in some number of steps. */
  ghost predicate Reaches(p: Program, s: State, t: State) {
    exists n: nat :: Run(p, s, n) == Some(t)
  }

  lemma ReachesRefl(p: Program, s: State)
    ensures Reaches(p, s, s)
  {
    assert Run(p, s, 0) == Some(s);
  }

  lemma ReachesStep(p: Program, s: State, t: State)
    requires Step(p, s) == Some(t)
    ensures Reaches(p, s, t)
  {
    assert Run(p, s, 1) == Run(p, t, 0);
  }

  lemma ReachesTrans(p: Program, s: State, t: State, u: State)
    requires Reaches(p, s, t) && Reaches(p, t, u)
    ensures Reaches(p, s, u)
  {
    var m: nat :| Run(p, s, m) == Some(t);
    var n: nat :| Run(p, t, n) == Some(u);
    RunAdd(p, s, m, n);
  }

  // Straight-line code.

  /** The words of the program from word `pos` on are `code`. */
  ghost predicate CodeAt(p: Program, pos: int, code: seq<Instr>) {
    0 <= pos && pos + |code| <= |p.code| && p.code[pos..pos + |code|] == code
  }

  lemma CodeAtSplit(p: Program, pos: int, a: seq<Instr>, b: seq<Instr>)
    requires CodeAt(p, pos, a + b)
    ensures CodeAt(p, pos, a) && CodeAt(p, pos + |a|, b)
  {
    assert (a + b)[..|a|] == a && (a + b)[|a|..] == b;
    assert p.code[pos..pos + |a|] == p.code[pos..pos + |a| + |b|][..|a|];
    assert p.code[pos + |a|..pos + |a| + |b|] == p.code[pos..pos + |a| + |b|][|a|..];
  }

  /** Running the instructions of a branch-free sequence one after the other. */
  function Exec(code: seq<Instr>, s: State): Option<State> {
    if code == [] then Some(s)
    else
      match Next(code[0], s)
      case None => None
      case Some(t) => Exec(code[1..], t)
  }

  predicate IsBranch(i: Instr) { i.Branch? || i.BranchCond? || i.BranchReg? }

  lemma {:induction false} ReachesExec(p: Program, pos: int, code: seq<Instr>, s: State)
    requires CodeAt(p, pos, code) && s.pc == p.base + 4 * pos && Exec(code, s).Some?
    requires forall i | i in code :: !IsBranch(i)
    ensures Reaches(p, s, Exec(code, s).value)
    decreases code
  {
    if code == [] {
      ReachesRefl(p, s);
    } else {
      assert p.code[pos] == p.code[pos..pos + |code|][0] == code[0];
      assert code == [code[0]] + code[1..];
      CodeAtSplit(p, pos, [code[0]], code[1..]);
      var t := Next(code[0], s).value;
      ReachesStep(p, s, t);
      ReachesExec(p, pos + 1, code[1..], t);
      ReachesTrans(p, s, t, Exec(code, s).value);
    }
  }

  lemma {:induction false} ExecAppend(a: seq<Instr>, b: seq<Instr>, s: State)
    ensures Exec(a + b, s) == (match Exec(a, s) case None => None case Some(t) => Exec(b, t))
    decreases a
  {
    if a == [] {
      assert a + b == b;
    } else {
      assert (a + b)[0] == a[0] && (a + b)[1..] == a[1..] + b;
      if Next(a[0], s).Some? {
        ExecAppend(a[1..], b, Next(a[0], s).value);
      }
    }
  }

  lemma ExecOne(i: Instr, s: State)
    ensures Exec([i], s) == Next(i, s)
  {
    if Next(i, s).Some? {
      assert Exec([i][1..], Next(i, s).value) == Next(i, s);
    }
  }

  lemma ExecThen(a: seq<Instr>, i: Instr, s: State, t: State)
    requires Exec(a, s) == Some(t)
    ensures Exec(a + [i], s) == Next(i, t)
  {
    hide Next, Exec;
    ExecAppend(a, [i], s);
    ExecOne(i, t);
  }

  lemma ExecTwoTo(i: Instr, j: Instr, s: State, t: State, u: State)
    requires Next(i, s) == Some(t) && Next(j, t) == Some(u)
    ensures Exec([i, j], s) == Some(u)
  {
    ExecTwo(i, j, s);
  }

  lemma ExecTwo(i: Instr, j: Instr, s: State)
    ensures Exec([i, j], s) == (match Next(i, s) case None => None case Some(t) => Next(j, t))
  {
    if Next(i, s).Some? {
      assert [i, j][1..] == [j];
      ExecOne(j, Next(i, s).value);
    }
  }
}
