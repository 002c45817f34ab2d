/** The code of a whole body simulates the body, by induction on its structure. */
module Body {
  import opened Numbers
  import opened Isa
  import opened Machine
  import opened Codegen
  import opened Simulation
  import W = Wasm

  /** What the memory holds of a stack: whether a cell was leaked does not show. */
  function Vals(stack: seq<W.Cell>): (vs: seq<W.Value>)
    ensures |vs| == |stack| && forall i :: 0 <= i < |stack| ==> vs[i] == stack[i].v
  {
    seq(|stack|, i requires 0 <= i < |stack| => stack[i].v)
  }

  /** The machine is between two instructions of the body, in state `st`. */
  ghost predicate Sees(x: Ctx, s: State, st: W.St) { Inv(x, s, Vals(st.stack), st.locals) }

  /** It gets from `s` to `t` without disturbing what the body leaves alone. */
  ghost predicate Goes(x: Ctx, s: State, t: State) { Reaches(x.p, s, t) && Keeps(x, s, t) }

  lemma GoesRefl(x: Ctx, s: State)
    ensures Goes(x, s, s)
  {
    ReachesRefl(x.p, s);
  }

  lemma GoesTrans(x: Ctx, s: State, t: State, u: State)
    requires Goes(x, s, t) && Goes(x, t, u)
    ensures Goes(x, s, u)
  {
    ReachesTrans(x.p, s, t, u);
    KeepsTrans(x, s, t, u);
  }

  function At(x: Ctx, pos: int): int { x.p.base + 4 * pos }

  // Instructions without branches.

  lemma ExecConst(x: Ctx, s: State, stack: seq<W.Value>, locals: seq<W.Value>, wide: bool, v: int) returns (t: State)
    requires Separate(x) && Inv(x, s, stack, locals) && |stack| < W.SLOTS
    ensures Exec(ConstCode(wide, v), s) == Some(t) && t.pc == s.pc + 4 * |ConstCode(wide, v)| && Keeps(x, s, t)
    ensures Inv(x, t, stack + [W.Val(wide, Wrap(v, wide))], locals)
    ensures t.mem == Store(s.mem, x.wst + 8 * |stack|, wide, Wrap(v, wide))
  {
    var u := ExecMov(wide, 11, v, s);
    InvScratch(x, s, u, stack, locals);
    PartFits(Wrap(v, wide), wide);
    t := ExecPush(x, u, stack, locals, wide, 11, W.Val(wide, Wrap(v, wide)));
    Chain(MovCode(wide, 11, v), PushCode(wide, 11), s, u, t);
    KeepsTrans(x, s, u, t);
  }

  lemma ExecGet(x: Ctx, s: State, stack: seq<W.Value>, locals: seq<W.Value>, i: nat) returns (t: State)
    requires Separate(x) && Inv(x, s, stack, locals) && |stack| < W.SLOTS && i < |locals|
    ensures Exec(GetCode(x.slots[i]), s) == Some(t) && t.pc == s.pc + 12 && Keeps(x, s, t)
    ensures Inv(x, t, stack + [locals[i]], locals)
    ensures t.mem == Store(s.mem, x.wst + 8 * |stack|, locals[i].wide, locals[i].bits)
  {
    var u := ExecLoadLocal(x, s, stack, locals, i);
    PartFits(locals[i].bits, locals[i].wide);
    t := ExecPush(x, u, stack, locals, x.slots[i].wide, 11, locals[i]);
    Chain([Access(x.slots[i].wide, true, 11, 31, x.slots[i].off)], PushCode(x.slots[i].wide, 11), s, u, t);
    KeepsTrans(x, s, u, t);
  }

  lemma ExecPut(x: Ctx, s: State, stack: seq<W.Value>, locals: seq<W.Value>, i: nat) returns (t: State)
    requires Separate(x) && Inv(x, s, stack, locals) && |stack| > 0 && i < |locals|
        && stack[|stack| - 1].wide == locals[i].wide
    ensures Exec(SetCode(x.slots[i], false), s) == Some(t) && t.pc == s.pc + 12 && Keeps(x, s, t)
    ensures Inv(x, t, stack[..|stack| - 1], locals[i := stack[|stack| - 1]])
    ensures t.mem == Store(s.mem, SlotAt(x, i), locals[i].wide, stack[|stack| - 1].bits)
  {
    var wide := x.slots[i].wide;
    var u := ExecPop(x, s, stack, locals, wide, 11);
    t := ExecStoreLocal(x, u, stack[..|stack| - 1], locals, i, stack[|stack| - 1]);
    Chain(PopCode(wide, 11), [Access(wide, false, 11, 31, x.slots[i].off)], s, u, t);
    KeepsTrans(x, s, u, t);
  }

  lemma ExecTeeLocal(x: Ctx, s: State, stack: seq<W.Value>, locals: seq<W.Value>, i: nat) returns (t: State)
    requires Separate(x) && Inv(x, s, stack, locals) && |stack| > 0 && i < |locals|
        && stack[|stack| - 1].wide == locals[i].wide
    ensures Exec(SetCode(x.slots[i], true), s) == Some(t) && t.pc == s.pc + 16 && Keeps(x, s, t)
    ensures Inv(x, t, stack, locals[i := stack[|stack| - 1]])
    ensures t.mem == Store(s.mem, SlotAt(x, i), locals[i].wide, stack[|stack| - 1].bits)
  {
    var wide := x.slots[i].wide;
    var u := ExecTee(x, s, stack, locals, wide, 11);
    t := ExecStoreLocal(x, u, stack, locals, i, stack[|stack| - 1]);
    Chain(TeeCode(wide, 11), [Access(wide, false, 11, 31, x.slots[i].off)], s, u, t);
    KeepsTrans(x, s, u, t);
  }

  lemma ExecBinary(x: Ctx, s: State, stack: seq<W.Value>, locals: seq<W.Value>, wide: bool, arith: W.Arith)
      returns (t: State)
    requires Separate(x) && Inv(x, s, stack, locals) && |stack| >= 2
    requires stack[|stack| - 1].wide == wide && stack[|stack| - 2].wide == wide && !arith.DivS? && !arith.DivU?
    ensures Exec(OperandsCode(wide) + [ArithInstr(wide, arith)] + PushCode(wide, 11), s) == Some(t)
    ensures t.pc == s.pc + 28 && Keeps(x, s, t)
    ensures Inv(x, t, stack[..|stack| - 2] + [W.Result(arith, wide, stack[|stack| - 2], stack[|stack| - 1])], locals)
    ensures t.mem ==
        Store(s.mem, x.wst + 8 * (|stack| - 2), wide,
              W.Result(arith, wide, stack[|stack| - 2], stack[|stack| - 1]).bits)
  {
    var a, b := stack[|stack| - 2], stack[|stack| - 1];
    var u := ExecOperands(x, s, stack, locals, wide, 11, 12);
    t := ExecArith(x, u, stack[..|stack| - 2], locals, wide, arith, a, b);
    Chain(OperandsCode(wide), [ArithInstr(wide, arith)] + PushCode(wide, 11), s, u, t);
    assert OperandsCode(wide) + [ArithInstr(wide, arith)] + PushCode(wide, 11)
        == OperandsCode(wide) + ([ArithInstr(wide, arith)] + PushCode(wide, 11));
    KeepsTrans(x, s, u, t);
  }

  lemma NextNop(s: State)
    ensures Exec([Isa.Nop], s) == Some(s.(pc := s.pc + 4))
  {
    ExecOne(Isa.Nop, s);
  }

  lemma PopTwo(st: W.St, wide: bool)
    requires W.ReadyTwo(st, wide)
    ensures |st.stack| >= 2
    ensures Vals(W.Pop(W.Pop(st)).stack) == Vals(st.stack)[..|st.stack| - 2]
    ensures W.Top(st).v == Vals(st.stack)[|st.stack| - 1] && W.Top(W.Pop(st)).v == Vals(st.stack)[|st.stack| - 2]
    ensures W.Top(st).v.wide == wide && W.Top(W.Pop(st)).v.wide == wide
    ensures W.Pop(W.Pop(st)).locals == st.locals
  {}

  lemma PushVals(stack: seq<W.Cell>, v: W.Value)
    ensures Vals(stack + [W.Cell(v, false)]) == Vals(stack) + [v]
  {}

  /** Pushing a result, on the machine and in the semantics. */
  lemma Pushed(x: Ctx, t: State, st: W.St, v: W.Value)
    requires Inv(x, t, Vals(st.stack) + [v], st.locals) && |st.stack| < W.SLOTS
    ensures W.Push(st, v).Done? && Sees(x, t, W.Push(st, v).st)
  {
    PushVals(st.stack, v);
  }

  /** What an instruction stores: its result on the operand stack, a comparison's with 64 bits, or a variable. */
  ghost predicate Wrote(x: Ctx, op: W.Op, st: W.St, m: Mem, m': Mem)
    requires W.JitOp(op, st).Done?
  {
    var st' := W.JitOp(op, st).st;
    if op.Nop? || op.Return? then m' == m
    else if op.Put? || op.Tee? then
      op.i < |x.slots| && |st.stack| > 0 && m' == Store(m, SlotAt(x, op.i), x.slots[op.i].wide, W.Top(st).v.bits)
    else
      |st'.stack| > 0 && var top := W.Top(st').v;
      m' == Store(m, x.wst + 8 * (|st'.stack| - 1), op.Compare? || top.wide, top.bits)
  }

  /** The code of an instruction other than a division does what the instruction does. */
  ghost predicate Ran(x: Ctx, op: W.Op, s: State, st: W.St, t: State) {
    var code := OpCode(op, 0, x.slots, 0);
    && Exec(code, s) == Some(t) && t.pc == s.pc + 4 * |code| && Keeps(x, s, t)
    && W.JitOp(op, st).Done? && Sees(x, t, W.JitOp(op, st).st) && Wrote(x, op, st, s.mem, t.mem)
  }

  lemma RunPut(x: Ctx, i: nat, s: State, st: W.St) returns (t: State)
    requires Separate(x) && Sees(x, s, st) && W.JitOp(W.Put(i), st).Done?
    ensures Ran(x, W.Put(i), s, st, t)
  {
    t := ExecPut(x, s, Vals(st.stack), st.locals, i);
    assert Vals(W.Pop(st).stack) == Vals(st.stack)[..|st.stack| - 1];
  }

  lemma RunTee(x: Ctx, i: nat, s: State, st: W.St) returns (t: State)
    requires Separate(x) && Sees(x, s, st) && W.JitOp(W.Tee(i), st).Done?
    ensures Ran(x, W.Tee(i), s, st, t)
  {
    t := ExecTeeLocal(x, s, Vals(st.stack), st.locals, i);
  }

  lemma CompareDone(st: W.St, wide: bool, cmp: W.Cmp)
    requires W.ReadyTwo(st, wide)
    ensures W.JitOp(W.Compare(wide, cmp), st) ==
            W.Push(W.Pop(W.Pop(st)), W.Flag(W.Holds(cmp, wide, W.Top(W.Pop(st)).v.bits, W.Top(st).v.bits)))
  {}

  lemma BinaryDone(st: W.St, wide: bool, arith: W.Arith)
    requires W.ReadyTwo(st, wide) && !W.JitTraps(arith, wide, W.Top(W.Pop(st)).v.bits, W.Top(st).v.bits)
    ensures W.JitOp(W.Binary(wide, arith), st) ==
            W.Push(W.Pop(W.Pop(st)), W.Result(arith, wide, W.Top(W.Pop(st)).v, W.Top(st).v))
  {}

  lemma TwoLengths(wide: bool, cmp: W.Cmp, arith: W.Arith)
    ensures |CompareCode(wide, CondOf(cmp))| == 10
        && |OperandsCode(wide) + [ArithInstr(wide, arith)] + PushCode(wide, 11)| == 7
  {}

  lemma RunCompare(x: Ctx, wide: bool, cmp: W.Cmp, s: State, st: W.St) returns (t: State)
    requires Separate(x) && Sees(x, s, st) && W.JitOp(W.Compare(wide, cmp), st).Done?
    ensures Ran(x, W.Compare(wide, cmp), s, st, t)
  {
    hide Separate, Inv, Keeps;
    PopTwo(st, wide);
    t := ExecCompare(x, s, Vals(st.stack), st.locals, wide, cmp);
    CompareDone(st, wide, cmp);
    TwoLengths(wide, cmp, W.Add);
    Pushed(x, t, W.Pop(W.Pop(st)), W.Flag(W.Holds(cmp, wide, W.Top(W.Pop(st)).v.bits, W.Top(st).v.bits)));
  }

  lemma RunBinary(x: Ctx, wide: bool, arith: W.Arith, s: State, st: W.St) returns (t: State)
    requires Separate(x) && Sees(x, s, st) && W.JitOp(W.Binary(wide, arith), st).Done? && !arith.DivS? && !arith.DivU?
    ensures Ran(x, W.Binary(wide, arith), s, st, t)
  {
    hide Separate, Inv, Keeps;
    PopTwo(st, wide);
    t := ExecBinary(x, s, Vals(st.stack), st.locals, wide, arith);
    BinaryDone(st, wide, arith);
    TwoLengths(wide, W.Eq, arith);
    Pushed(x, t, W.Pop(W.Pop(st)), W.Result(arith, wide, W.Top(W.Pop(st)).v, W.Top(st).v));
  }

  lemma RunGet(x: Ctx, i: nat, s: State, st: W.St) returns (t: State)
    requires Separate(x) && Sees(x, s, st) && W.JitOp(W.Get(i), st).Done?
    ensures Ran(x, W.Get(i), s, st, t)
  {
    t := ExecGet(x, s, Vals(st.stack), st.locals, i);
    Pushed(x, t, st, st.locals[i]);
  }

  lemma ByteWraps(wide: bool, byte: W.Byte)
    ensures Wrap(byte, wide) == byte
  {}

  lemma RunConst(x: Ctx, wide: bool, byte: W.Byte, s: State, st: W.St) returns (t: State)
    requires Separate(x) && Sees(x, s, st) && W.JitOp(W.Const(wide, byte), st).Done?
    ensures Ran(x, W.Const(wide, byte), s, st, t)
  {
    ByteWraps(wide, byte);
    t := ExecConst(x, s, Vals(st.stack), st.locals, wide, byte);
    Pushed(x, t, st, W.Val(wide, byte));
  }

  lemma RunOp(x: Ctx, op: W.Op, s: State, st: W.St) returns (t: State)
    requires Separate(x) && Sees(x, s, st) && !IsDiv(op) && W.JitOp(op, st).Done?
    ensures Ran(x, op, s, st, t)
  {
    match op
    case Nop =>
      NextNop(s);
      t := s.(pc := s.pc + 4);
    case Return => t := s;
    case Get(i) => t := RunGet(x, i, s, st);
    case Const(wide, byte) => t := RunConst(x, wide, byte, s, st);
    case Put(i) => t := RunPut(x, i, s, st);
    case Tee(i) => t := RunTee(x, i, s, st);
    case Compare(wide, cmp) => t := RunCompare(x, wide, cmp, s, st);
    case Binary(wide, arith) => t := RunBinary(x, wide, arith, s, st);
  }

  lemma Unbranched(op: W.Op, pos: int, slots: seq<Slot>, normal: int)
    requires !IsDiv(op)
    ensures OpCode(op, pos, slots, normal) == OpCode(op, 0, slots, 0)
    ensures forall i | i in OpCode(op, pos, slots, normal) :: !IsBranch(i)
  {}

  // Tests and branches.

  /** Only scratch registers other than the stack's, the flags and the pc differ. */
  ghost predicate Calm(s: State, t: State) {
    t.sp == s.sp && t.mem == s.mem && forall r :: 0 <= r < 31 && r != 5 && r != 11 ==> t.regs[r] == s.regs[r]
  }

  lemma CalmGoes(x: Ctx, s: State, t: State, stack: seq<W.Value>, locals: seq<W.Value>)
    requires Inv(x, s, stack, locals) && Calm(s, t) && Reaches(x.p, s, t)
    ensures Inv(x, t, stack, locals) && Goes(x, s, t)
  {}

  /** A comparison with zero and the branch taken on equality. */
  lemma ZeroTest(p: Program, pos: int, wide: bool, dist: int, s: State) returns (t: State)
    requires CodeAt(p, pos, [CmpImm(wide, 11, 0), BranchCond(EQ, dist)]) && s.pc == p.base + 4 * pos
        && s.regs[11] < Span(wide)
    ensures Reaches(p, s, t) && Calm(s, t) && t.regs == s.regs
    ensures t.pc == p.base + 4 * (pos + 1 + if s.regs[11] == 0 then dist else 1)
  {
    var cmp := CmpImm(wide, 11, 0);
    assert [cmp, BranchCond(EQ, dist)] == [cmp] + [BranchCond(EQ, dist)];
    CodeAtSplit(p, pos, [cmp], [BranchCond(EQ, dist)]);
    var u := SetFlags(s, AddSub(s.regs[11], 0, true, wide)).(pc := s.pc + 4);
    NextCompareZero(s, wide, 11);
    ExecOne(cmp, s);
    ReachesCode(p, pos, [cmp], s, u);
    CompareFlags(s.regs[11], 0, wide);
    t := ReachesBranch(p, pos + 1, u, EQ, dist);
    ReachesTrans(p, s, u, t);
  }

  lemma MovUnbranched(wide: bool, v: int)
    ensures |MovCode(wide, 5, v)| == MovLength(wide)
    ensures forall i | i in MovCode(wide, 5, v) :: !IsBranch(i)
  {}

  /** A comparison of register `rn` with a constant. */
  lemma ConstantCompare(s: State, wide: bool, rn: nat, v: int) returns (t: State)
    requires (rn == 11 || rn == 12) && s.regs[rn] < Span(wide)
    ensures Exec(MovCode(wide, 5, v) + [CmpReg(wide, rn, 5)], s) == Some(t)
    ensures Calm(s, t) && t.regs[11] == s.regs[11] && t.pc == s.pc + 4 * MovLength(wide) + 4
    ensures t.z <==> s.regs[rn] == Wrap(v, wide)
  {
    var u := ExecMov(wide, 5, v, s);
    NextCompare(u, wide, rn, 5);
    CompareFlags(s.regs[rn], Wrap(v, wide), wide);
    t := SetFlags(u, AddSub(u.regs[rn], u.regs[5], true, wide)).(pc := u.pc + 4);
    ExecOne(CmpReg(wide, rn, 5), u);
    Chain(MovCode(wide, 5, v), [CmpReg(wide, rn, 5)], s, u, t);
  }

  /** A comparison with a constant and the branch taken on inequality. */
  lemma ConstantTest(p: Program, pos: int, wide: bool, rn: nat, v: int, dist: int, s: State) returns (t: State)
    requires CodeAt(p, pos, MovCode(wide, 5, v) + [CmpReg(wide, rn, 5), BranchCond(NE, dist)])
        && s.pc == p.base + 4 * pos
    requires (rn == 11 || rn == 12) && s.regs[rn] < Span(wide)
    ensures Reaches(p, s, t) && Calm(s, t) && t.regs[11] == s.regs[11]
    ensures t.pc == p.base + 4 * (pos + MovLength(wide) + 1 + if s.regs[rn] == Wrap(v, wide) then 1 else dist)
  {
    var code := MovCode(wide, 5, v) + [CmpReg(wide, rn, 5)];
    assert MovCode(wide, 5, v) + [CmpReg(wide, rn, 5), BranchCond(NE, dist)] == code + [BranchCond(NE, dist)];
    CodeAtSplit(p, pos, code, [BranchCond(NE, dist)]);
    MovUnbranched(wide, v);
    var u := ConstantCompare(s, wide, rn, v);
    ReachesCode(p, pos, code, s, u);
    t := ReachesBranch(p, pos + MovLength(wide) + 1, u, NE, dist);
    ReachesTrans(p, s, u, t);
  }

  lemma WrapConstants(wide: bool)
    ensures Wrap(-1, wide) == Span(wide) - 1 && 2 * Wrap(-HalfSpan(wide), wide) == Span(wide)
  {}

  lemma CheckParts(p: Program, wide: bool, pos: int, normal: int)
    requires CodeAt(p, pos, CheckCode(wide, pos, normal))
    ensures
      var m := MovLength(wide);
      && CodeAt(p, pos, [CmpImm(wide, 11, 0), BranchCond(EQ, PREPARE - (pos + 1))])
      && CodeAt(p, pos + 2, MovCode(wide, 5, -1) + [CmpReg(wide, 11, 5), BranchCond(NE, normal - (pos + 3 + m))])
      && CodeAt(p, pos + 4 + m, MovCode(wide, 5, -HalfSpan(wide))
          + [CmpReg(wide, 12, 5), BranchCond(NE, normal - (pos + 5 + 2 * m))])
      && CodeAt(p, pos + 6 + 2 * m, [Branch(false, PREPARE - (pos + 6 + 2 * m))])
  {
    var m := MovLength(wide);
    var a := [CmpImm(wide, 11, 0), BranchCond(EQ, PREPARE - (pos + 1))];
    var b := MovCode(wide, 5, -1) + [CmpReg(wide, 11, 5), BranchCond(NE, normal - (pos + 3 + m))];
    var c := MovCode(wide, 5, -HalfSpan(wide)) + [CmpReg(wide, 12, 5), BranchCond(NE, normal - (pos + 5 + 2 * m))];
    var d := [Branch(false, PREPARE - (pos + 6 + 2 * m))];
    CodeAtSplit(p, pos, a + b + c, d);
    CodeAtSplit(p, pos, a + b, c);
    CodeAtSplit(p, pos, a, b);
  }

  /** The last branch of the checks. */
  lemma LeastDecided(p: Program, pos: int, wide: bool, normal: int, s: State) returns (t: State)
    requires CodeAt(p, pos, CheckCode(wide, pos, normal)) && s.pc == p.base + 4 * (pos + 4 + MovLength(wide))
    requires s.regs[12] < Span(wide)
    ensures Reaches(p, s, t) && Calm(s, t) && t.regs[11] == s.regs[11]
    ensures t.pc == p.base + 4 * if W.OverflowPair(wide, s.regs[12], Span(wide) - 1) then PREPARE else normal
  {
    hide CodeAt, Reaches, CheckCode, MovCode;
    var m := MovLength(wide);
    CheckParts(p, wide, pos, normal);
    WrapConstants(wide);
    t := ConstantTest(p, pos + 4 + m, wide, 12, -HalfSpan(wide), normal - (pos + 5 + 2 * m), s);
    if W.OverflowPair(wide, s.regs[12], Span(wide) - 1) {
      var u := t;
      t := ReachesJump(p, pos + 6 + 2 * m, u, PREPARE - (pos + 6 + 2 * m));
      ReachesTrans(p, s, u, t);
    }
  }

  /** The checks after the one for zero. */
  lemma OverflowDecided(p: Program, pos: int, wide: bool, normal: int, s: State) returns (t: State)
    requires CodeAt(p, pos, CheckCode(wide, pos, normal)) && s.pc == p.base + 4 * (pos + 2)
    requires s.regs[11] < Span(wide) && s.regs[12] < Span(wide)
    ensures Reaches(p, s, t) && Calm(s, t) && t.regs[11] == s.regs[11]
    ensures t.pc == p.base + 4 * if W.OverflowPair(wide, s.regs[12], s.regs[11]) then PREPARE else normal
  {
    hide CodeAt, Reaches, CheckCode, MovCode;
    var m := MovLength(wide);
    CheckParts(p, wide, pos, normal);
    WrapConstants(wide);
    t := ConstantTest(p, pos + 2, wide, 11, -1, normal - (pos + 3 + m), s);
    if s.regs[11] == Span(wide) - 1 {
      var u := t;
      t := LeastDecided(p, pos, wide, normal, u);
      ReachesTrans(p, s, u, t);
    }
  }

  /**
   The checks decide division exactly: the word `preparelongjmp` is reached just when the divisor is zero or the
   operands are the overflow pair, otherwise the word that `normal_div` stands for; the operands stay in place.
   */
  lemma DivisionDecided(p: Program, pos: int, wide: bool, normal: int, s: State) returns (t: State)
    requires CodeAt(p, pos, CheckCode(wide, pos, normal)) && s.pc == p.base + 4 * pos
    requires s.regs[11] < Span(wide) && s.regs[12] < Span(wide)
    ensures Reaches(p, s, t) && Calm(s, t) && t.regs[11] == s.regs[11]
    ensures t.pc == p.base + 4 * if W.JitTraps(W.DivS, wide, s.regs[12], s.regs[11]) then PREPARE else normal
  {
    hide CodeAt, Reaches, CheckCode;
    CheckParts(p, wide, pos, normal);
    t := ZeroTest(p, pos, wide, PREPARE - (pos + 1), s);
    if s.regs[11] != 0 {
      var u := t;
      t := OverflowDecided(p, pos, wide, normal, u);
      ReachesTrans(p, s, u, t);
    }
  }

  // Division.

  lemma CheckLength(wide: bool, pos: int, normal: int)
    ensures |CheckCode(wide, pos, normal)| == 7 + 2 * MovLength(wide)
  {}

  lemma DivParts(p: Program, wide: bool, arith: W.Arith, pos: int, normal: int)
    requires CodeAt(p, pos, DivCode(wide, arith, pos, normal))
    ensures CodeAt(p, pos, OperandsCode(wide)) && CodeAt(p, pos + 4, CheckCode(wide, pos + 4, normal))
    ensures CodeAt(p, pos + DivLabel(wide), [ArithInstr(wide, arith)] + PushCode(wide, 11))
    ensures forall i | i in OperandsCode(wide) :: !IsBranch(i)
    ensures forall i | i in [ArithInstr(wide, arith)] + PushCode(wide, 11) :: !IsBranch(i)
  {
    CheckLength(wide, pos + 4, normal);
    hide CodeAt, CheckCode;
    var a, b, c := OperandsCode(wide), CheckCode(wide, pos + 4, normal), [ArithInstr(wide, arith)] + PushCode(wide, 11);
    assert DivCode(wide, arith, pos, normal) == a + b + c;
    CodeAtSplit(p, pos, a + b, c);
    CodeAtSplit(p, pos, a, b);
  }

  /** From the operands to the word that the checks choose. */
  lemma ReachDecision(x: Ctx, s: State, stack: seq<W.Value>, locals: seq<W.Value>, wide: bool, pos: int, normal: int)
    returns (t: State)
    requires Separate(x) && Inv(x, s, stack, locals) && |stack| >= 2 && s.pc == At(x, pos)
    requires stack[|stack| - 1].wide == wide && stack[|stack| - 2].wide == wide
    requires CodeAt(x.p, pos, OperandsCode(wide)) && CodeAt(x.p, pos + 4, CheckCode(wide, pos + 4, normal))
    ensures Goes(x, s, t) && Inv(x, t, stack[..|stack| - 2], locals)
    ensures t.regs[12] == stack[|stack| - 2].bits && t.regs[11] == stack[|stack| - 1].bits
    ensures t.pc == At(x, if W.JitTraps(W.DivS, wide, stack[|stack| - 2].bits, stack[|stack| - 1].bits) then PREPARE
        else normal)
    ensures t.mem == s.mem
  {
    hide Separate, Inv, Reaches, CodeAt, CheckCode;
    var u := ExecOperands(x, s, stack, locals, wide, 11, 12);
    ReachesCode(x.p, pos, OperandsCode(wide), s, u);
    t := DivisionDecided(x.p, pos + 4, wide, normal, u);
    CalmGoes(x, u, t, stack[..|stack| - 2], locals);
    GoesTrans(x, s, u, t);
  }

  lemma InvDepth(x: Ctx, s: State, stack: seq<W.Value>, locals: seq<W.Value>)
    requires Inv(x, s, stack, locals)
    ensures |stack| <= W.SLOTS
  {}

  /** A division whose label stands for its own word. */
  lemma RunDivision(x: Ctx, wide: bool, arith: W.Arith, pos: int, s: State, st: W.St) returns (t: State)
    requires Separate(x) && Sees(x, s, st) && (arith.DivS? || arith.DivU?) && W.ReadyTwo(st, wide) && s.pc == At(x, pos)
    requires CodeAt(x.p, pos, DivCode(wide, arith, pos, pos + DivLabel(wide)))
    ensures Goes(x, s, t)
    ensures
      var rest, v, w := W.Pop(W.Pop(st)), W.Top(W.Pop(st)).v, W.Top(st).v;
      if W.JitTraps(arith, wide, v.bits, w.bits) then t.pc == At(x, PREPARE)
      else
        && !W.RefTraps(arith, wide, v.bits, w.bits)
        && t.pc == At(x, pos + DivLabel(wide) + 3)
        && W.Push(rest, W.Result(arith, wide, v, w)).Done? && Sees(x, t, W.Push(rest, W.Result(arith, wide, v, w)).st)
        && t.mem == Store(s.mem, x.wst + 8 * |rest.stack|, wide, W.Result(arith, wide, v, w).bits)
  {
    hide Separate, Inv, Keeps, Reaches, CodeAt, DivCode, Store, W.Result, W.RefTraps, Exec;
    var normal, stack := pos + DivLabel(wide), Vals(st.stack);
    InvDepth(x, s, stack, st.locals);
    PopTwo(st, wide);
    DivParts(x.p, wide, arith, pos, normal);
    var rest, v, w := W.Pop(W.Pop(st)), W.Top(W.Pop(st)).v, W.Top(st).v;
    t := ReachDecision(x, s, stack, st.locals, wide, pos, normal);
    if !W.JitTraps(arith, wide, v.bits, w.bits) {
      var u := t;
      t := ExecArith(x, u, stack[..|stack| - 2], st.locals, wide, arith, v, w);
      ReachesCode(x.p, normal, [ArithInstr(wide, arith)] + PushCode(wide, 11), u, t);
      GoesTrans(x, s, u, t);
      Pushed(x, t, rest, W.Result(arith, wide, v, w));
    }
  }

  /** The machine is where an outcome says: at word `end` in the new state, or at `preparelongjmp` after a trap. */
  ghost predicate Arrives(x: Ctx, s: State, o: W.Outcome, end: int, t: State) {
    && Goes(x, s, t)
    && (o.Done? ==> t.pc == At(x, end) && Sees(x, t, o.st))
    && (o.Trap? ==> t.pc == At(x, PREPARE))
  }

  lemma DivisionOutcome(st: W.St, wide: bool, arith: W.Arith)
    requires W.ReadyTwo(st, wide) && W.JitTraps(arith, wide, W.Top(W.Pop(st)).v.bits, W.Top(st).v.bits)
    ensures W.JitOp(W.Binary(wide, arith), st).Trap?
  {}

  lemma DivisionWrote(x: Ctx, st: W.St, wide: bool, arith: W.Arith, m: Mem, m': Mem)
    requires W.ReadyTwo(st, wide) && !W.JitTraps(arith, wide, W.Top(W.Pop(st)).v.bits, W.Top(st).v.bits)
    requires !W.RefTraps(arith, wide, W.Top(W.Pop(st)).v.bits, W.Top(st).v.bits)
    requires W.Push(W.Pop(W.Pop(st)), W.Result(arith, wide, W.Top(W.Pop(st)).v, W.Top(st).v)).Done?
    requires m' ==
        Store(m, x.wst + 8 * |W.Pop(W.Pop(st)).stack|, wide,
              W.Result(arith, wide, W.Top(W.Pop(st)).v, W.Top(st).v).bits)
    ensures W.JitOp(W.Binary(wide, arith), st).Done? && Wrote(x, W.Binary(wide, arith), st, m, m')
  {
    hide W.JitOp, Store, W.JitTraps, W.RefTraps;
    BinaryDone(st, wide, arith);
    ResultWide(wide, arith, W.Top(W.Pop(st)).v, W.Top(st).v);
  }

  lemma ResultWide(wide: bool, arith: W.Arith, a: W.Value, b: W.Value)
    requires a.wide == wide && b.wide == wide && !W.RefTraps(arith, wide, a.bits, b.bits)
    ensures W.Result(arith, wide, a, b).wide == wide
  {}

  lemma RunDivStep(x: Ctx, wide: bool, arith: W.Arith, pos: int, s: State, st: W.St) returns (t: State)
    requires Separate(x) && Sees(x, s, st) && (arith.DivS? || arith.DivU?) && W.ReadyTwo(st, wide) && s.pc == At(x, pos)
    requires CodeAt(x.p, pos, DivCode(wide, arith, pos, pos + DivLabel(wide)))
    ensures Arrives(x, s, W.JitOp(W.Binary(wide, arith), st), pos + DivLabel(wide) + 3, t)
    ensures W.JitOp(W.Binary(wide, arith), st).Done? ==> Wrote(x, W.Binary(wide, arith), st, s.mem, t.mem)
  {
    hide Separate, Sees, CodeAt, Reaches, W.JitOp, Wrote, Store, W.JitTraps, W.RefTraps;
    DivParts(x.p, wide, arith, pos, pos + DivLabel(wide));
    t := RunDivision(x, wide, arith, pos, s, st);
    if W.JitTraps(arith, wide, W.Top(W.Pop(st)).v.bits, W.Top(st).v.bits) {
      DivisionOutcome(st, wide, arith);
    } else {
      BinaryDone(st, wide, arith);
      DivisionWrote(x, st, wide, arith, s.mem, t.mem);
    }
  }

  lemma RunPlainStep(x: Ctx, op: W.Op, pos: int, normal: int, s: State, st: W.St) returns (t: State)
    requires Separate(x) && Sees(x, s, st) && s.pc == At(x, pos) && CodeAt(x.p, pos, OpCode(op, pos, x.slots, normal))
    requires !IsDiv(op) && W.JitOp(op, st).Done?
    ensures Arrives(x, s, W.JitOp(op, st), pos + OpLength(op, x.slots), t)
    ensures W.JitOp(op, st).Done? ==> Wrote(x, op, st, s.mem, t.mem)
  {
    Unbranched(op, pos, x.slots, normal);
    OpCodeLength(op, 0, x.slots, 0);
    t := RunOp(x, op, s, st);
    ReachesCode(x.p, pos, OpCode(op, pos, x.slots, normal), s, t);
  }

  /** What an instruction that neither is stuck nor overflows the stack has. */
  lemma Stepping(op: W.Op, st: W.St)
    requires W.JitOp(op, st).Done? || W.JitOp(op, st).Trap?
    ensures IsDiv(op) ==> W.ReadyTwo(st, op.wide)
    ensures !IsDiv(op) ==> W.JitOp(op, st).Done?
  {}

  lemma RunStep(x: Ctx, op: W.Op, pos: int, normal: int, s: State, st: W.St) returns (t: State)
    requires Separate(x) && Sees(x, s, st) && s.pc == At(x, pos) && CodeAt(x.p, pos, OpCode(op, pos, x.slots, normal))
    requires IsDiv(op) ==> normal == pos + DivLabel(op.wide)
    requires W.JitOp(op, st).Done? || W.JitOp(op, st).Trap?
    ensures Arrives(x, s, W.JitOp(op, st), pos + OpLength(op, x.slots), t)
    ensures W.JitOp(op, st).Done? ==> Wrote(x, op, st, s.mem, t.mem)
  {
    hide Separate, Sees, Arrives, CodeAt;
    Stepping(op, st);
    if IsDiv(op) {
      t := RunDivStep(x, op.wide, op.arith, pos, s, st);
    } else {
      t := RunPlainStep(x, op, pos, normal, s, st);
    }
  }

  // Structured code.

  /** The test of an `if`: the stack keeps the condition. */
  lemma RunTest(x: Ctx, pos: int, skip: int, s: State, st: W.St) returns (t: State)
    requires Separate(x) && Sees(x, s, st) && s.pc == At(x, pos) && CodeAt(x.p, pos, TestCode(skip))
        && W.Ready(st, false)
    ensures Goes(x, s, t) && Sees(x, t, W.Peeked(st))
    ensures t.pc == At(x, pos + TEST_LENGTH + if W.Top(st).v.bits != 0 then 0 else skip)
    ensures t.mem == s.mem
  {
    hide Separate, CodeAt, Reaches, Keeps;
    var stack := Vals(st.stack);
    assert Vals(W.Peeked(st).stack) == stack;
    var test := [CmpImm(false, 11, 0), BranchCond(EQ, skip + 1)];
    CodeAtSplit(x.p, pos, TeeCode(false, 11), test);
    var u := ExecTee(x, s, stack, st.locals, false, 11);
    ReachesCode(x.p, pos, TeeCode(false, 11), s, u);
    t := ZeroTest(x.p, pos + 3, false, skip + 1, u);
    CalmGoes(x, u, t, stack, st.locals);
    GoesTrans(x, s, u, t);
  }

  /** Every division's label stands for its own word. */
  ghost predicate OwnDiv(c: W.Code, pos: int, slots: seq<Slot>, normal: int)
    decreases c
  {
    match c
    case End => true
    case Do(op, rest) => (IsDiv(op) ==> normal == pos + DivLabel(op.wide))
        && OwnDiv(rest, pos + OpLength(op, slots), slots, normal)
    case IfThen(_, thn, rest) =>
      && OwnDiv(thn, pos + TEST_LENGTH, slots, normal)
      && OwnDiv(rest, pos + TEST_LENGTH + Length(thn, slots), slots, normal)
    case IfElse(_, thn, els, rest) =>
      var mid := pos + TEST_LENGTH + (Length(thn, slots) + 1);
      OwnDiv(thn, pos + TEST_LENGTH, slots, normal) && OwnDiv(els, mid, slots, normal)
      && OwnDiv(rest, mid + Length(els, slots), slots, normal)
  }

  /** A part of the code up to word `mid`, then the code of `rest` up to word `end`. */
  ghost predicate Then(x: Ctx, mid: int, rest: W.Code, end: int, normal: int) {
    && CodeAt(x.p, mid, Compile(rest, mid, x.slots, normal)) && OwnDiv(rest, mid, x.slots, normal)
    && end == mid + Length(rest, x.slots)
  }

  lemma DoParts(x: Ctx, c: W.Code, pos: int, end: int, normal: int)
    requires c.Do? && Then(x, pos, c, end, normal)
    ensures CodeAt(x.p, pos, OpCode(c.op, pos, x.slots, normal))
        && (IsDiv(c.op) ==> normal == pos + DivLabel(c.op.wide))
    ensures Then(x, pos + OpLength(c.op, x.slots), c.rest, end, normal)
  {
    OpCodeLength(c.op, pos, x.slots, normal);
    CodeAtSplit(x.p, pos, OpCode(c.op, pos, x.slots, normal),
        Compile(c.rest, pos + OpLength(c.op, x.slots), x.slots, normal));
  }

  lemma CodeAtThree(p: Program, i: int, j: int, k: int, a: seq<Instr>, b: seq<Instr>, c: seq<Instr>)
    requires CodeAt(p, i, a + b + c) && j == i + |a| && k == j + |b|
    ensures CodeAt(p, i, a) && CodeAt(p, j, b) && CodeAt(p, k, c)
  {
    CodeAtSplit(p, i, a + b, c);
    CodeAtSplit(p, i, a, b);
  }

  lemma CodeAtFive(p: Program, i: int, j: int, k: int, l: int, m: int,
                   a: seq<Instr>, b: seq<Instr>, c: seq<Instr>, d: seq<Instr>, e: seq<Instr>)
    requires CodeAt(p, i, a + b + c + d + e) && j == i + |a| && k == j + |b| && l == k + |c| && m == l + |d|
    ensures CodeAt(p, i, a) && CodeAt(p, j, b) && CodeAt(p, k, c) && CodeAt(p, l, d) && CodeAt(p, m, e)
  {
    CodeAtSplit(p, i, a + b + c + d, e);
    CodeAtSplit(p, i, a + b + c, d);
    CodeAtThree(p, i, j, k, a, b, c);
  }

  /** Where the parts of an `if` are: the test skips `thn` words, and the branch after the first arm skips `els`. */
  ghost predicate Laid(x: Ctx, c: W.Code, pos: int, thn: nat, els: nat, end: int, normal: int)
    requires c.IfThen? || c.IfElse?
  {
    var mid := pos + TEST_LENGTH + thn;
    && CodeAt(x.p, pos, TestCode(thn))
    && Then(x, mid + els, c.rest, end, normal)
    && (c.IfThen? ==> els == 0 && Then(x, pos + TEST_LENGTH, c.thn, mid, normal))
    && (c.IfElse? ==>
      && Then(x, pos + TEST_LENGTH, c.thn, mid - 1, normal)
      && CodeAt(x.p, mid - 1, [Branch(false, els + 1)])
      && Then(x, mid, c.els, mid + els, normal))
  }

  lemma IfThenOwn(block: W.Block, thn: W.Code, rest: W.Code, pos: int, next: int, slots: seq<Slot>, normal: int)
    requires OwnDiv(W.IfThen(block, thn, rest), pos, slots, normal) && next == pos + TEST_LENGTH + Length(thn, slots)
    ensures OwnDiv(thn, pos + TEST_LENGTH, slots, normal) && OwnDiv(rest, next, slots, normal)
  {
    hide Length;
  }

  lemma IfThenCode(x: Ctx, block: W.Block, thn: W.Code, rest: W.Code, pos: int, next: int, normal: int)
    requires CodeAt(x.p, pos, Compile(W.IfThen(block, thn, rest), pos, x.slots, normal))
    requires next == pos + TEST_LENGTH + Length(thn, x.slots)
    ensures CodeAt(x.p, pos, TestCode(Length(thn, x.slots)))
    ensures CodeAt(x.p, pos + TEST_LENGTH, Compile(thn, pos + TEST_LENGTH, x.slots, normal))
    ensures CodeAt(x.p, next, Compile(rest, next, x.slots, normal))
  {
    hide TestCode, CodeAt, OpCode, OpLength, Length;
    var first, t := pos + TEST_LENGTH, Length(thn, x.slots);
    TestLength(t);
    CompileLength(thn, first, x.slots, normal);
    CodeAtThree(x.p, pos, first, next, TestCode(t), Compile(thn, first, x.slots, normal),
        Compile(rest, next, x.slots, normal));
  }

  lemma IfThenParts(x: Ctx, block: W.Block, thn: W.Code, rest: W.Code, pos: int, end: int, normal: int)
    requires Then(x, pos, W.IfThen(block, thn, rest), end, normal)
    ensures Laid(x, W.IfThen(block, thn, rest), pos, Length(thn, x.slots), 0, end, normal)
  {
    hide TestCode, CodeAt, Compile, OpLength, OwnDiv;
    var next := pos + TEST_LENGTH + Length(thn, x.slots);
    IfThenOwn(block, thn, rest, pos, next, x.slots, normal);
    IfThenCode(x, block, thn, rest, pos, next, normal);
  }

  lemma IfElseOwn(block: W.Block, thn: W.Code, els: W.Code, rest: W.Code, pos: int, mid: int, next: int,
      slots: seq<Slot>, normal: int)
    requires OwnDiv(W.IfElse(block, thn, els, rest), pos, slots, normal)
    requires mid == pos + TEST_LENGTH + (Length(thn, slots) + 1) && next == mid + Length(els, slots)
    ensures OwnDiv(thn, pos + TEST_LENGTH, slots, normal) && OwnDiv(els, mid, slots, normal)
        && OwnDiv(rest, next, slots, normal)
  {
    hide Length;
  }

  lemma LengthIfElse(block: W.Block, thn: W.Code, els: W.Code, rest: W.Code, pos: int, end: int, slots: seq<Slot>)
    requires end == pos + Length(W.IfElse(block, thn, els, rest), slots)
    ensures end == pos + TEST_LENGTH + (Length(thn, slots) + 1) + Length(els, slots) + Length(rest, slots)
  {}

  lemma IfElseCode(x: Ctx, block: W.Block, thn: W.Code, els: W.Code, rest: W.Code, pos: int, mid: int, next: int,
      normal: int)
    requires CodeAt(x.p, pos, Compile(W.IfElse(block, thn, els, rest), pos, x.slots, normal))
    requires mid == pos + TEST_LENGTH + (Length(thn, x.slots) + 1) && next == mid + Length(els, x.slots)
    ensures CodeAt(x.p, pos, TestCode(Length(thn, x.slots) + 1))
    ensures CodeAt(x.p, pos + TEST_LENGTH, Compile(thn, pos + TEST_LENGTH, x.slots, normal))
    ensures CodeAt(x.p, mid - 1, [Branch(false, Length(els, x.slots) + 1)])
    ensures CodeAt(x.p, mid, Compile(els, mid, x.slots, normal))
        && CodeAt(x.p, next, Compile(rest, next, x.slots, normal))
  {
    hide TestCode, CodeAt, OpCode, OpLength, Length;
    var first, t, e := pos + TEST_LENGTH, Length(thn, x.slots), Length(els, x.slots);
    TestLength(t + 1);
    CompileLength(thn, first, x.slots, normal);
    CompileLength(els, mid, x.slots, normal);
    CodeAtFive(x.p, pos, first, mid - 1, mid, next, TestCode(t + 1), Compile(thn, first, x.slots, normal),
        [Branch(false, e + 1)],
               Compile(els, mid, x.slots, normal), Compile(rest, next, x.slots, normal));
  }

  lemma LaidIfElse(x: Ctx, block: W.Block, thn: W.Code, els: W.Code, rest: W.Code,
                   pos: int, mid: int, next: int, t: nat, e: nat, end: int, normal: int)
    requires CodeAt(x.p, pos, TestCode(t + 1)) && mid == pos + TEST_LENGTH + (t + 1) && next == mid + e
    requires Then(x, pos + TEST_LENGTH, thn, mid - 1, normal) && CodeAt(x.p, mid - 1, [Branch(false, e + 1)])
    requires Then(x, mid, els, next, normal) && Then(x, next, rest, end, normal)
    ensures Laid(x, W.IfElse(block, thn, els, rest), pos, t + 1, e, end, normal)
  {
    hide Then, CodeAt, TestCode;
  }

  lemma IfElseParts(x: Ctx, block: W.Block, thn: W.Code, els: W.Code, rest: W.Code, pos: int, end: int, normal: int)
    requires Then(x, pos, W.IfElse(block, thn, els, rest), end, normal)
    ensures Laid(x, W.IfElse(block, thn, els, rest), pos, Length(thn, x.slots) + 1, Length(els, x.slots), end, normal)
  {
    hide TestCode, CodeAt, Compile, OwnDiv, Length, Laid;
    var t, e := Length(thn, x.slots), Length(els, x.slots);
    var mid := pos + TEST_LENGTH + (t + 1);
    LengthIfElse(block, thn, els, rest, pos, end, x.slots);
    IfElseOwn(block, thn, els, rest, pos, mid, mid + e, x.slots, normal);
    IfElseCode(x, block, thn, els, rest, pos, mid, mid + e, normal);
    LaidIfElse(x, block, thn, els, rest, pos, mid, mid + e, t, e, end, normal);
  }

  lemma IfParts(x: Ctx, c: W.Code, pos: int, end: int, normal: int) returns (thn: nat, els: nat)
    requires (c.IfThen? || c.IfElse?) && Then(x, pos, c, end, normal)
    ensures Laid(x, c, pos, thn, els, end, normal)
  {
    hide Laid, Then;
    match c
    case IfThen(block, t, rest) =>
      IfThenParts(x, block, t, rest, pos, end, normal);
      thn, els := Length(t, x.slots), 0;
    case IfElse(block, t, e, rest) =>
      IfElseParts(x, block, t, e, rest, pos, end, normal);
      thn, els := Length(t, x.slots) + 1, Length(e, x.slots);
  }

  /** Going on from an outcome. */
  function Onward(o: W.Outcome, rest: W.Code): W.Outcome { if o.Done? then W.Jit(rest, o.st) else o }

  predicate Regular(o: W.Outcome) { o.Done? || o.Trap? }

  lemma ArmRegular(c: W.Code, st: W.St)
    requires (c.IfThen? || c.IfElse?) && Regular(W.Jit(c, st))
    ensures W.Ready(st, false) && Regular(W.JitArm(c, st)) && W.Jit(c, st) == Onward(W.JitArm(c, st), c.rest)
  {}

  /** The end of a part that did not trap is where the next one starts. */
  lemma {:induction false} RunRest(x: Ctx, rest: W.Code, mid: int, end: int, normal: int, s: State, o: W.Outcome,
      t: State)
    returns (u: State)
    requires Separate(x) && Arrives(x, s, o, mid, t) && Then(x, mid, rest, end, normal)
    requires Regular(o) && Regular(Onward(o, rest))
    ensures Arrives(x, s, Onward(o, rest), end, u)
    decreases rest, 2
  {
    u := t;
    if o.Done? {
      u := RunCode(x, rest, mid, end, normal, t, o.st);
      GoesTrans(x, s, t, u);
    }
  }

  /** The test of an `if` and the arm that it chooses. */
  lemma {:induction false} RunArm(x: Ctx, c: W.Code, pos: int, thn: nat, els: nat, end: int, normal: int, s: State,
      st: W.St)
    returns (t: State)
    requires (c.IfThen? || c.IfElse?) && W.Ready(st, false) && Regular(W.JitArm(c, st))
        && Laid(x, c, pos, thn, els, end, normal)
    requires Separate(x) && Sees(x, s, st) && s.pc == At(x, pos)
    ensures Arrives(x, s, W.JitArm(c, st), pos + TEST_LENGTH + thn + els, t)
    decreases c, 0
  {
    hide Separate, Inv, Keeps, OwnDiv, W.Jit, Compile, Length, CodeAt, Reaches;
    var mid, o := pos + TEST_LENGTH + thn, W.Done(W.Peeked(st));
    t := RunTest(x, pos, thn, s, st);
    if W.Top(st).v.bits == 0 {
      if c.IfElse? {
        t := RunRest(x, c.els, mid, mid + els, normal, s, o, t);
      }
    } else if c.IfThen? {
      t := RunRest(x, c.thn, pos + TEST_LENGTH, mid, normal, s, o, t);
    } else {
      t := RunRest(x, c.thn, pos + TEST_LENGTH, mid - 1, normal, s, o, t);
      t := RunJump(x, mid - 1, mid + els, s, W.JitArm(c, st), t);
    }
  }

  /**
   A body's code does what the body does: it ends after its last word in the same state, or traps when the body does.
   */
  lemma {:induction false} RunCode(x: Ctx, c: W.Code, pos: int, end: int, normal: int, s: State, st: W.St)
      returns (t: State)
    requires Separate(x) && Sees(x, s, st) && s.pc == At(x, pos) && Then(x, pos, c, end, normal)
        && Regular(W.Jit(c, st))
    ensures Arrives(x, s, W.Jit(c, st), end, t)
    decreases c, 1
  {
    hide Separate, Inv, Goes, OwnDiv, Compile, CodeAt, W.JitOp;
    match c
    case End =>
      GoesRefl(x, s);
      t := s;
    case Do(op, rest) =>
      DoParts(x, c, pos, end, normal);
      t := RunStep(x, op, pos, normal, s, st);
      t := RunRest(x, rest, pos + OpLength(op, x.slots), end, normal, s, W.JitOp(op, st), t);
    case _ =>
      ArmRegular(c, st);
      var thn, els := IfParts(x, c, pos, end, normal);
      t := RunArm(x, c, pos, thn, els, end, normal, s, st);
      t := RunRest(x, c.rest, pos + TEST_LENGTH + thn + els, end, normal, s, W.JitArm(c, st), t);
  }

  /** The branch from the end of an arm that did not trap to the end of the `if`. */
  lemma RunJump(x: Ctx, pos: int, next: int, s: State, o: W.Outcome, t: State) returns (u: State)
    requires Arrives(x, s, o, pos, t) && CodeAt(x.p, pos, [Branch(false, next - pos)])
    ensures Arrives(x, s, o, next, u)
  {
    u := t;
    if o.Done? {
      u := ReachesJump(x.p, pos, t, next - pos);
      CalmGoes(x, t, u, Vals(o.st.stack), o.st.locals);
      GoesTrans(x, s, t, u);
    }
  }
}
