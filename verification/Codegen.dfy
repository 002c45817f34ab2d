/**
 The code of a function with every branch resolved: what include/Wasm emits once its placeholders are patched, stated
 by recursion on the structured code. Positions count words from the first word of the function.
 */
module Codegen {
  import opened Isa
  import W = Wasm

  /** Where a variable lives: its width and the byte offset from sp that an access to it has. */
  datatype Slot = Slot(wide: bool, off: nat)


  // Positions of the fixed code before the function's own.

  const SETJMP := 1
  const PREPARE := 11
  const LONGJMP := 15
  const RAISE := 27
  const ENTRY := 32

  const BUFFER := 19
  const STACK := 20
  const DEPTH := 21

  // Conditions.

  const EQ := 0
  const NE := 1

  function CondOf(cmp: W.Cmp): nat {
    match cmp
    case Eq => 0
    case Ne => 1
    case GeU => 2
    case LtU => 3
    case GtU => 8
    case LeU => 9
    case GeS => 10
    case LtS => 11
    case GtS => 12
    case LeS => 13
  }

  // Single instructions.

  function AddImm(rd: nat, rn: nat, imm: nat): Instr { AddSubImm(true, false, false, rd, rn, imm, false) }
  function SubImm(rd: nat, rn: nat, imm: nat): Instr { AddSubImm(true, true, false, rd, rn, imm, false) }
  function CmpImm(wide: bool, rn: nat, imm: nat): Instr { AddSubImm(wide, true, true, 31, rn, imm, false) }
  function CmpReg(wide: bool, rn: nat, rm: nat): Instr { AddSubReg(wide, true, true, 31, rn, rm, 0, 0) }
  function MovSp(rd: nat, rn: nat): Instr { AddImm(rd, rn, 0) }
  function Movz(wide: bool, rd: nat, imm: nat): Instr { MovWide(wide, MovZ, rd, imm, 0) }

  /** A scaled access at byte offset `off` from register `rn`: the low bits that the scale drops are lost. */
  function Access(wide: bool, load: bool, rt: nat, rn: nat, off: nat): Instr {
    LdStImm(wide, load, rt, rn, off / (if wide then 8 else 4), UnsignedOffset)
  }

  // Short sequences.

  function PushCode(wide: bool, r: nat): seq<Instr> { [LdStReg(wide, false, r, STACK, DEPTH), AddImm(DEPTH, DEPTH, 8)] }

  function PopCode(wide: bool, r: nat): seq<Instr> { [SubImm(DEPTH, DEPTH, 8), LdStReg(wide, true, r, STACK, DEPTH)] }

  function TeeCode(wide: bool, r: nat): seq<Instr> { PopCode(wide, r) + [AddImm(DEPTH, DEPTH, 8)] }

  /** The half-words of a value, whose unsigned or signed number is `v`. */
  function Half(v: int, i: nat): nat {
    (if i == 0 then v else if i == 1 then v / 0x1_0000 else if i == 2 then v / 0x1_0000_0000
        else v / 0x1_0000_0000_0000) % 0x1_0000
  }

  function MovCode(wide: bool, rd: nat, v: int): seq<Instr> {
    if wide then
      [MovWide(true, MovZ, rd, Half(v, 0), 0), MovWide(true, MovK, rd, Half(v, 1), 1)]
      + [MovWide(true, MovK, rd, Half(v, 2), 2), MovWide(true, MovK, rd, Half(v, 3), 3)]
    else [MovWide(false, MovZ, rd, Half(v, 0), 0), MovWide(false, MovK, rd, Half(v, 1), 1)]
  }

  function GetCode(slot: Slot): seq<Instr> { [Access(slot.wide, true, 11, 31, slot.off)] + PushCode(slot.wide, 11) }

  function SetCode(slot: Slot, tee: bool): seq<Instr> {
    (if tee then TeeCode(slot.wide, 11) else PopCode(slot.wide, 11)) + [Access(slot.wide, false, 11, 31, slot.off)]
  }

  function ConstCode(wide: bool, v: int): seq<Instr> { MovCode(wide, 11, v) + PushCode(wide, 11) }

  function CompareCode(wide: bool, cond: nat): seq<Instr> {
    [Movz(true, 3, 1), Movz(true, 4, 0)] + (PopCode(wide, 12) + PopCode(wide, 11))
    + [CmpReg(wide, 11, 12), Csel(true, 0, 3, 4, cond)] + PushCode(true, 0)
  }

  function OperandsCode(wide: bool): seq<Instr> { PopCode(wide, 11) + PopCode(wide, 12) }

  /** The instruction of an operation on x12 and x11. */
  function ArithInstr(wide: bool, arith: W.Arith): Instr {
    match arith
    case Add => AddSubReg(wide, false, false, 11, 12, 11, 0, 0)
    case Sub => AddSubReg(wide, true, false, 11, 12, 11, 0, 0)
    case Mul => Mul(wide, 11, 12, 11)
    case DivS => Div(wide, true, 11, 12, 11)
    case DivU => Div(wide, false, 11, 12, 11)
  }

  function IsDiv(op: W.Op): bool { op.Binary? && (op.arith.DivS? || op.arith.DivU?) }

  /** The number of words that load a constant. */
  function MovLength(wide: bool): nat { if wide then 4 else 2 }

  /** The word of a division, counted from the first word of its code, that its label `normal_div` stands for. */
  function DivLabel(wide: bool): nat { 11 + 2 * MovLength(wide) }

  /** The magnitude of the least signed number. */
  function HalfSpan(wide: bool): int { if wide then 0x8000_0000_0000_0000 else 0x8000_0000 }

  /**
   The checks before a division, placed after its operands are loaded at word `pos`; `normal` is where the label is.
   */
  function CheckCode(wide: bool, pos: int, normal: int): seq<Instr> {
    var m := MovLength(wide);
    [CmpImm(wide, 11, 0), BranchCond(EQ, PREPARE - (pos + 1))]
    + (MovCode(wide, 5, -1) + [CmpReg(wide, 11, 5), BranchCond(NE, normal - (pos + 3 + m))])
    + (MovCode(wide, 5, -HalfSpan(wide)) + [CmpReg(wide, 12, 5), BranchCond(NE, normal - (pos + 5 + 2 * m))])
    + [Branch(false, PREPARE - (pos + 6 + 2 * m))]
  }

  function DivCode(wide: bool, arith: W.Arith, pos: int, normal: int): seq<Instr> {
    OperandsCode(wide) + CheckCode(wide, pos + 4, normal) + [ArithInstr(wide, arith)] + PushCode(wide, 11)
  }

  /** The code of one instruction at word `pos`; `normal` is the word that the label `normal_div` stands for. */
  function OpCode(op: W.Op, pos: int, slots: seq<Slot>, normal: int): seq<Instr> {
    match op
    case Nop => [Isa.Nop]
    case Return => []
    case Get(i) => if i < |slots| then GetCode(slots[i]) else []
    case Put(i) => if i < |slots| then SetCode(slots[i], false) else []
    case Tee(i) => if i < |slots| then SetCode(slots[i], true) else []
    case Const(wide, byte) => ConstCode(wide, byte)
    case Compare(wide, cmp) => CompareCode(wide, CondOf(cmp))
    case Binary(wide, arith) =>
      if IsDiv(op) then DivCode(wide, arith, pos, normal)
      else OperandsCode(wide) + [ArithInstr(wide, arith)] + PushCode(wide, 11)
  }

  /** The test of an `if`: a zero condition skips `skip` words. */
  function TestCode(skip: int): seq<Instr> { TeeCode(false, 11) + [CmpImm(false, 11, 0), BranchCond(EQ, skip + 1)] }

  const TEST_LENGTH := 5

  /** The number of words of an instruction's code. */
  function OpLength(op: W.Op, slots: seq<Slot>): nat {
    match op
    case Nop => 1
    case Return => 0
    case Get(i) => if i < |slots| then 3 else 0
    case Put(i) => if i < |slots| then 3 else 0
    case Tee(i) => if i < |slots| then 4 else 0
    case Const(wide, _) => MovLength(wide) + 2
    case Compare(_, _) => 10
    case Binary(wide, _) => if IsDiv(op) then DivLabel(wide) + 3 else 7
  }

  /** The number of words of a body's code: it does not depend on where the code is placed. */
  function Length(c: W.Code, slots: seq<Slot>): nat {
    match c
    case End => 0
    case Do(op, rest) => OpLength(op, slots) + Length(rest, slots)
    case IfThen(_, thn, rest) => TEST_LENGTH + Length(thn, slots) + Length(rest, slots)
    case IfElse(_, thn, els, rest) => TEST_LENGTH + (Length(thn, slots) + 1) + Length(els, slots) + Length(rest, slots)
  }

  function Three<T>(a: seq<T>, b: seq<T>, c: seq<T>): seq<T> { a + b + c }

  function Five<T>(a: seq<T>, b: seq<T>, c: seq<T>, d: seq<T>, e: seq<T>): seq<T> { a + b + c + d + e }

  /** The code of a body at word `pos`. */
  function Compile(c: W.Code, pos: int, slots: seq<Slot>, normal: int): seq<Instr>
    decreases c
  {
    match c
    case End => []
    case Do(op, rest) => OpCode(op, pos, slots, normal) + Compile(rest, pos + OpLength(op, slots), slots, normal)
    case IfThen(_, thn, rest) =>
      var next := pos + TEST_LENGTH + Length(thn, slots);
      Three(TestCode(Length(thn, slots)), Compile(thn, pos + TEST_LENGTH, slots, normal),
          Compile(rest, next, slots, normal))
    case IfElse(_, thn, els, rest) =>
      var mid := pos + TEST_LENGTH + (Length(thn, slots) + 1);
      var next := mid + Length(els, slots);
      Five(TestCode(Length(thn, slots) + 1), Compile(thn, pos + TEST_LENGTH, slots, normal),
          [Branch(false, Length(els, slots) + 1)],
           Compile(els, mid, slots, normal), Compile(rest, next, slots, normal))
  }

  lemma DivCodeLength(wide: bool, arith: W.Arith, pos: int, normal: int)
    ensures |DivCode(wide, arith, pos, normal)| == DivLabel(wide) + 3
  {}

  lemma OpCodeLength(op: W.Op, pos: int, slots: seq<Slot>, normal: int)
    ensures |OpCode(op, pos, slots, normal)| == OpLength(op, slots)
  {
    if IsDiv(op) {
      DivCodeLength(op.wide, op.arith, pos, normal);
    }
  }

  lemma TestLength(skip: int)
    ensures |TestCode(skip)| == TEST_LENGTH
  {}

  lemma {:induction false} CompileLength(c: W.Code, pos: int, slots: seq<Slot>, normal: int)
    ensures |Compile(c, pos, slots, normal)| == Length(c, slots)
  {
    hide OpCode, OpLength, TestCode;
    match c
    case End =>
    case Do(op, rest) =>
      OpCodeLength(op, pos, slots, normal);
      CompileLength(rest, pos + OpLength(op, slots), slots, normal);
    case IfThen(_, thn, rest) =>
      TestLength(Length(thn, slots));
      CompileLength(thn, pos + TEST_LENGTH, slots, normal);
      CompileLength(rest, pos + TEST_LENGTH + Length(thn, slots), slots, normal);
    case IfElse(_, thn, els, rest) =>
      var mid := pos + TEST_LENGTH + (Length(thn, slots) + 1);
      TestLength(Length(thn, slots) + 1);
      CompileLength(thn, pos + TEST_LENGTH, slots, normal);
      CompileLength(els, mid, slots, normal);
      CompileLength(rest, mid + Length(els, slots), slots, normal);
  }
}
