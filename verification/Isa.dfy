/**
 The AArch64 instructions that the JIT emits, their encoding as bit-field diagrams and, as its reference, a decoder.
 Both follow section C6.2 of Arm DDI 0487.
 */
module Isa {
  import opened Bits

  datatype Mode = PostIndex | PreIndex | SignedOffset | UnsignedOffset

  datatype MovKind = MovN | MovZ | MovK

  datatype JumpKind = Br | Blr | Ret

  /** `wide` selects the X registers; register 31 is sp or the zero register, as the instruction says. */
  datatype Instr =
    | Nop
    | AddSubReg(wide: bool, sub: bool, setFlags: bool, rd: nat, rn: nat, rm: nat, shift: nat, amount: nat)
    | AddSubImm(wide: bool, sub: bool, setFlags: bool, rd: nat, rn: nat, imm: nat, shifted: bool)
    | Mul(wide: bool, rd: nat, rn: nat, rm: nat)
    | Div(wide: bool, signed: bool, rd: nat, rn: nat, rm: nat)
    | MovReg(wide: bool, rd: nat, rm: nat)
    | MovWide(wide: bool, kind: MovKind, rd: nat, imm: nat, hw: nat)
    | Pair(wide: bool, load: bool, rt: nat, rt2: nat, rn: nat, scaled: int, mode: Mode)
    | LdStImm(wide: bool, load: bool, rt: nat, rn: nat, off: int, mode: Mode)
    | LdStReg(wide: bool, load: bool, rt: nat, rn: nat, rm: nat)
    | Csel(wide: bool, rd: nat, rn: nat, rm: nat, cond: nat)
    | Branch(link: bool, dist: int)
    | BranchCond(cond: nat, dist: int)
    | BranchReg(jump: JumpKind, rn: nat)
    | Adr(rd: nat, off: int)
    | Undefined

  predicate Reg(r: nat) { r < 32 }

  /** The registers and the unsigned operands fit their fields; signed operands are not looked at. */
  predicate Fits(i: Instr) {
    match i
    case Nop => true
    case AddSubReg(_, _, _, rd, rn, rm, shift, amount) => Reg(rd) && Reg(rn) && Reg(rm) && shift < 4 && amount < 64
    case AddSubImm(_, _, _, rd, rn, imm, _) => Reg(rd) && Reg(rn) && imm < 4096
    case Mul(_, rd, rn, rm) => Reg(rd) && Reg(rn) && Reg(rm)
    case Div(_, _, rd, rn, rm) => Reg(rd) && Reg(rn) && Reg(rm)
    case MovReg(_, rd, rm) => Reg(rd) && Reg(rm)
    case MovWide(_, _, rd, imm, hw) => Reg(rd) && imm < 0x1_0000 && hw < 4
    case Pair(_, _, rt, rt2, rn, _, mode) => Reg(rt) && Reg(rt2) && Reg(rn) && !mode.UnsignedOffset?
    case LdStImm(_, _, rt, rn, off, mode) => Reg(rt) && Reg(rn) && !mode.SignedOffset?
        && (mode.UnsignedOffset? ==> 0 <= off < 4096)
    case LdStReg(_, _, rt, rn, rm) => Reg(rt) && Reg(rn) && Reg(rm)
    case Csel(_, rd, rn, rm, cond) => Reg(rd) && Reg(rn) && Reg(rm) && cond < 16
    case Branch(_, _) => true
    case BranchCond(cond, _) => cond < 16
    case BranchReg(_, rn) => Reg(rn)
    case Adr(rd, _) => Reg(rd)
    case Undefined => false
  }

  /** All operands fit their fields: the instruction has an encoding. */
  predicate Encodable(i: Instr) {
    && Fits(i)
    && match i
       case Pair(_, _, _, _, _, scaled, _) => -64 <= scaled < 64
       case LdStImm(_, _, _, _, off, mode) => mode.UnsignedOffset? || -256 <= off < 256
       case Branch(_, dist) => -0x200_0000 <= dist < 0x200_0000
       case BranchCond(_, dist) => -0x4_0000 <= dist < 0x4_0000
       case Adr(_, off) => -0x10_0000 <= off < 0x10_0000
       case _ => true
  }

  // The shapes of the diagrams: the lengths of the fields, from bit 31 downwards. Each sums to 32.

  const ADD_SUB_REG := End.F(0, 1).F(0, 1).F(0, 1).F(0, 5).F(0, 2).F(0, 1).F(0, 5).F(0, 6).F(0, 5).F(0, 5)
  const ADD_SUB_IMM := End.F(0, 1).F(0, 1).F(0, 1).F(0, 5).F(0, 1).F(0, 1).F(0, 12).F(0, 5).F(0, 5)
  const MUL := End.F(0, 1).F(0, 10).F(0, 5).F(0, 6).F(0, 5).F(0, 5)
  const DIV := End.F(0, 1).F(0, 9).F(0, 1).F(0, 5).F(0, 5).F(0, 1).F(0, 5).F(0, 5)
  const MOV_REG := End.F(0, 1).F(0, 6).F(0, 4).F(0, 5).F(0, 6).F(0, 5).F(0, 5)
  const MOV_WIDE := End.F(0, 1).F(0, 8).F(0, 2).F(0, 16).F(0, 5)
  const PAIR := End.F(0, 1).F(0, 8).F(0, 1).F(0, 7).F(0, 5).F(0, 5).F(0, 5)
  const LD_ST_IMM := End.F(0, 1).F(0, 1).F(0, 3).F(0, 3).F(0, 1).F(0, 1).F(0, 12).F(0, 5).F(0, 5)
  const LD_ST_INDEX := End.F(0, 1).F(0, 1).F(0, 3).F(0, 4).F(0, 1).F(0, 1).F(0, 9).F(0, 2).F(0, 5).F(0, 5)
  const LD_ST_REG := End.F(0, 1).F(0, 1).F(0, 3).F(0, 4).F(0, 1).F(0, 1).F(0, 5).F(0, 4).F(0, 2).F(0, 5).F(0, 5)
  const CSEL := End.F(0, 1).F(0, 8).F(0, 2).F(0, 5).F(0, 4).F(0, 2).F(0, 5).F(0, 5)
  const BRANCH := End.F(0, 1).F(0, 5).F(0, 26)
  const BRANCH_COND := End.F(0, 8).F(0, 19).F(0, 1).F(0, 4)
  const BRANCH_REG := End.F(0, 10).F(0, 1).F(0, 11).F(0, 5).F(0, 5)
  const ADR := End.F(0, 1).F(0, 2).F(0, 1).F(0, 4).F(0, 19).F(0, 5)

  function Bit(b: bool): nat { if b then 1 else 0 }

  function MovOpcode(kind: MovKind): nat {
    match kind case MovN => 0x25 case MovZ => 0xA5 case MovK => 0xE5
  }

  function PairOpcode(mode: Mode): nat {
    match mode case PostIndex => 0x51 case PreIndex => 0x53 case _ => 0x52
  }

  // The diagrams filled in, from bit 31 downwards; signed operands are in two's complement.

  function AddSubRegForm(wide: bool, sub: bool, setFlags: bool, rd: nat, rn: nat, rm: nat, shift: nat,
      amount: nat): Fields {
    End.F(Bit(wide), 1).F(Bit(sub), 1).F(Bit(setFlags), 1).F(0xB, 5).F(shift, 2).F(0, 1).F(rm, 5).F(amount, 6).F(rn,
        5).F(rd, 5)
  }

  function AddSubImmForm(wide: bool, sub: bool, setFlags: bool, rd: nat, rn: nat, imm: nat, shifted: bool): Fields {
    End.F(Bit(wide), 1).F(Bit(sub), 1).F(Bit(setFlags), 1).F(0x11, 5).F(0, 1).F(Bit(shifted), 1).F(imm, 12).F(rn,
        5).F(rd, 5)
  }

  function MulForm(wide: bool, rd: nat, rn: nat, rm: nat): Fields {
    End.F(Bit(wide), 1).F(0xD8, 10).F(rm, 5).F(0x1F, 6).F(rn, 5).F(rd, 5)
  }

  function DivForm(wide: bool, signed: bool, rd: nat, rn: nat, rm: nat): Fields {
    End.F(Bit(wide), 1).F(0x6B, 9).F(0, 1).F(rm, 5).F(1, 5).F(Bit(signed), 1).F(rn, 5).F(rd, 5)
  }

  function MovRegForm(wide: bool, rd: nat, rm: nat): Fields {
    End.F(Bit(wide), 1).F(0x15, 6).F(0, 4).F(rm, 5).F(0, 6).F(31, 5).F(rd, 5)
  }

  function MovWideForm(wide: bool, kind: MovKind, rd: nat, imm: nat, hw: nat): Fields {
    End.F(Bit(wide), 1).F(MovOpcode(kind), 8).F(hw, 2).F(imm, 16).F(rd, 5)
  }

  function PairForm(wide: bool, load: bool, rt: nat, rt2: nat, rn: nat, scaled: int, mode: Mode): Fields {
    End.F(Bit(wide), 1).F(PairOpcode(mode), 8).F(Bit(load), 1).F(scaled % 0x80, 7).F(rt2, 5).F(rn, 5).F(rt, 5)
  }

  function OffsetForm(wide: bool, load: bool, rt: nat, rn: nat, off: int): Fields {
    End.F(1, 1).F(Bit(wide), 1).F(7, 3).F(1, 3).F(0, 1).F(Bit(load), 1).F(off % 0x1000, 12).F(rn, 5).F(rt, 5)
  }

  function IndexForm(wide: bool, load: bool, rt: nat, rn: nat, off: int, pre: bool): Fields {
    End.F(1, 1).F(Bit(wide), 1).F(7, 3).F(0, 4).F(Bit(load), 1).F(0, 1).F(off % 0x200, 9).F(if pre then 3
        else 1, 2).F(rn, 5).F(rt, 5)
  }

  function RegisterForm(wide: bool, load: bool, rt: nat, rn: nat, rm: nat): Fields {
    End.F(1, 1).F(Bit(wide), 1).F(7, 3).F(0, 4).F(Bit(load), 1).F(1, 1).F(rm, 5).F(6, 4).F(2, 2).F(rn, 5).F(rt, 5)
  }

  function CselForm(wide: bool, rd: nat, rn: nat, rm: nat, cond: nat): Fields {
    End.F(Bit(wide), 1).F(0x35, 8).F(0, 2).F(rm, 5).F(cond, 4).F(0, 2).F(rn, 5).F(rd, 5)
  }

  function BranchForm(link: bool, dist: int): Fields { End.F(Bit(link), 1).F(5, 5).F(dist % 0x400_0000, 26) }

  function CondForm(cond: nat, dist: int): Fields { End.F(0x54, 8).F(dist % 0x8_0000, 19).F(0, 1).F(cond, 4) }

  function JumpForm(jump: JumpKind, rn: nat): Fields {
    End.F(if jump.Ret? then 0x359 else 0x358, 10).F(Bit(jump.Blr?), 1).F(0x7C0, 11).F(rn, 5).F(0, 5)
  }

  function AdrForm(rd: nat, off: int): Fields {
    End.F(0, 1).F(off % 4, 2).F(1, 1).F(0, 4).F(off / 4 % 0x8_0000, 19).F(rd, 5)
  }

  /** The diagram of an instruction. */
  function Form(i: Instr): Fields {
    match i
    case Nop => End.F(0xD503_201F, 32)
    case AddSubReg(wide, sub, setFlags, rd, rn, rm, shift, amount) => AddSubRegForm(wide, sub, setFlags, rd, rn, rm,
        shift, amount)
    case AddSubImm(wide, sub, setFlags, rd, rn, imm, shifted) => AddSubImmForm(wide, sub, setFlags, rd, rn, imm,
        shifted)
    case Mul(wide, rd, rn, rm) => MulForm(wide, rd, rn, rm)
    case Div(wide, signed, rd, rn, rm) => DivForm(wide, signed, rd, rn, rm)
    case MovReg(wide, rd, rm) => MovRegForm(wide, rd, rm)
    case MovWide(wide, kind, rd, imm, hw) => MovWideForm(wide, kind, rd, imm, hw)
    case Pair(wide, load, rt, rt2, rn, scaled, mode) => PairForm(wide, load, rt, rt2, rn, scaled, mode)
    case LdStImm(wide, load, rt, rn, off, mode) =>
      if mode.UnsignedOffset? then OffsetForm(wide, load, rt, rn, off)
          else IndexForm(wide, load, rt, rn, off, mode.PreIndex?)
    case LdStReg(wide, load, rt, rn, rm) => RegisterForm(wide, load, rt, rn, rm)
    case Csel(wide, rd, rn, rm, cond) => CselForm(wide, rd, rn, rm, cond)
    case Branch(link, dist) => BranchForm(link, dist)
    case BranchCond(cond, dist) => CondForm(cond, dist)
    case BranchReg(jump, rn) => JumpForm(jump, rn)
    case Adr(rd, off) => AdrForm(rd, off)
    case Undefined => End
  }

  /** The instruction word. */
  function Encode(i: Instr): nat { Pack(Form(i)) }

  /** Reading a field of the given span as a two's complement number. */
  function Signed(u: nat, span: nat): int { if 2 * u >= span then u - span else u }

  function DecodeAddSub(w: nat, top: nat): Instr {
    if top % 32 == 0x0B then
      var f := Unpack(w, ADD_SUB_REG);
      if At(f, 4) == 0 then AddSubReg(At(f, 9) == 1, At(f, 8) == 1, At(f, 7) ==
          1, At(f, 0), At(f, 1), At(f, 3), At(f, 5), At(f, 2)) else Undefined
    else
      var f := Unpack(w, ADD_SUB_IMM);
      if At(f, 4) == 0 then AddSubImm(At(f, 8) == 1, At(f, 7) == 1, At(f, 6) ==
          1, At(f, 0), At(f, 1), At(f, 2), At(f, 3) == 1) else Undefined
  }

  function DecodeSources(w: nat, top: nat): Instr {
    if top % 128 == 0x1B then
      var f := Unpack(w, MUL);
      if At(f, 2) == 0x1F && At(f, 4) == 0xD8 then Mul(At(f, 5) == 1, At(f, 0), At(f, 1), At(f, 3)) else Undefined
    else if High(w, 21) % 8 == 6 then
      var f := Unpack(w, DIV);
      if At(f, 3) == 1 then Div(At(f, 7) == 1, At(f, 2) == 1, At(f, 0), At(f, 1), At(f, 4)) else Undefined
    else if High(w, 21) % 8 == 4 then
      var f := Unpack(w, CSEL);
      if At(f, 2) == 0 then Csel(At(f, 7) == 1, At(f, 0), At(f, 1), At(f, 4), At(f, 3)) else Undefined
    else Undefined
  }

  function DecodeMov(w: nat, top: nat): Instr {
    if top % 128 == 0x2A then
      var f := Unpack(w, MOV_REG);
      if At(f, 1) == 31 && At(f, 2) == 0 && At(f, 4) == 0 then MovReg(At(f, 6) == 1, At(f, 0), At(f, 3)) else Undefined
    else
      var f := Unpack(w, MOV_WIDE);
      if At(f, 3) == 0x25 then MovWide(At(f, 4) == 1, MovN, At(f, 0), At(f, 1), At(f, 2))
      else if At(f, 3) == 0xA5 then MovWide(At(f, 4) == 1, MovZ, At(f, 0), At(f, 1), At(f, 2))
      else if At(f, 3) == 0xE5 then MovWide(At(f, 4) == 1, MovK, At(f, 0), At(f, 1), At(f, 2)) else Undefined
  }

  function DecodePair(w: nat): Instr {
    var f := Unpack(w, PAIR);
    var mode := if At(f, 5) == 0x51 then PostIndex else if At(f, 5) == 0x53 then PreIndex else SignedOffset;
    if At(f, 5) == 0x50 then Undefined
        else Pair(At(f, 6) == 1, At(f, 4) == 1, At(f, 0), At(f, 2), At(f, 1), Signed(At(f, 3), 0x80), mode)
  }

  function DecodeIndexed(w: nat): Instr {
    var f := Unpack(w, LD_ST_INDEX);
    var mode := if At(f, 2) == 1 then PostIndex else PreIndex;
    if At(f, 6) == 0 && At(f, 2) % 2 ==
        1 then LdStImm(At(f, 8) == 1, At(f, 5) == 1, At(f, 0), At(f, 1), Signed(At(f, 3), 0x200), mode)
    else Undefined
  }

  function DecodeRegister(w: nat): Instr {
    var f := Unpack(w, LD_ST_REG);
    if At(f, 7) == 0 && At(f, 3) == 6 && At(f, 2) == 2 then
      LdStReg(At(f, 9) == 1, At(f, 6) == 1, At(f, 0), At(f, 1), At(f, 4))
    else Undefined
  }

  function DecodeLoadStore(w: nat, top: nat): Instr {
    if top % 2 == 1 then
      var f := Unpack(w, LD_ST_IMM);
      if At(f, 4) == 0 then
        LdStImm(At(f, 7) == 1, At(f, 3) == 1, At(f, 0), At(f, 1), At(f, 2), UnsignedOffset)
      else Undefined
    else if High(w, 21) % 2 == 0 then DecodeIndexed(w)
    else DecodeRegister(w)
  }

  function DecodeBranch(w: nat, top: nat): Instr {
    if top == 0x54 then
      var f := Unpack(w, BRANCH_COND);
      if At(f, 1) == 0 then BranchCond(At(f, 0), Signed(At(f, 2), 0x8_0000)) else Undefined
    else if top == 0xD6 then
      var f := Unpack(w, BRANCH_REG);
      if At(f, 0) != 0 || At(f, 2) != 0x7C0 then Undefined
      else if At(f, 4) == 0x358 then BranchReg(if At(f, 3) == 1 then Blr else Br, At(f, 1))
      else if At(f, 4) == 0x359 && At(f, 3) == 0 then BranchReg(Ret, At(f, 1)) else Undefined
    else
      var f := Unpack(w, BRANCH);
      Branch(At(f, 2) == 1, Signed(At(f, 0), 0x400_0000))
  }

  function DecodeAdr(w: nat): Instr {
    var f := Unpack(w, ADR);
    Adr(At(f, 0), Signed(At(f, 1) * 4 + At(f, 4), 0x20_0000))
  }

  /** The decode table: the top byte selects the class; the class's diagram is read and its fixed fields are checked. */
  function Decode(w: nat): Instr {
    var top := High(w, 24);
    if top % 32 == 0x0B || top % 32 == 0x11 then DecodeAddSub(w, top)
    else if top % 128 == 0x1A || top % 128 == 0x1B then DecodeSources(w, top)
    else if top % 128 == 0x2A || top % 32 == 0x12 then DecodeMov(w, top)
    else if top % 128 / 2 == 0x14 then DecodePair(w)
    else if top == 0xB8 || top == 0xB9 || top == 0xF8 || top == 0xF9 then DecodeLoadStore(w, top)
    else if top == 0x54 || top == 0xD6 || top % 128 / 4 == 5 then DecodeBranch(w, top)
    else if top % 32 == 0x10 && top < 0x80 then DecodeAdr(w)
    else if w == 0xD503_201F then Nop
    else Undefined
  }

  // Decoding undoes encoding, class by class: `Read` gives the fields, `Top` the byte that selects the class.

  lemma Pow2Small()
    ensures Pow2(1) == 2 && Pow2(2) == 4 && Pow2(3) == 8 && Pow2(4) == 16 && Pow2(5) == 32 && Pow2(6) == 64
        && Pow2(7) == 128
    ensures Pow2(8) == 0x100 && Pow2(9) == 0x200 && Pow2(10) == 0x400 && Pow2(11) == 0x800 && Pow2(12) == 0x1000
    ensures Pow2(16) == 0x1_0000 && Pow2(19) == 0x8_0000 && Pow2(24) == 0x100_0000 && Pow2(26) == 0x400_0000
        && Pow2(32) == 0x1_0000_0000
  {
    assert Pow2(4) == 0x10;
    assert Pow2(8) == 0x100;
    assert Pow2(12) == 0x1000;
    assert Pow2(16) == 0x10000;
    assert Pow2(20) == 0x100000;
    assert Pow2(24) == 0x1000000;
    assert Pow2(28) == 0x10000000;
    assert Pow2(32) == 0x100000000;
  }

  /** Bits 31 to 24 of an instruction word; those of a `Branch` depend on its distance. */
  function TopByte(i: Instr): nat {
    match i
    case Nop => 0xD5
    case AddSubReg(wide, sub, setFlags, _, _, _, _, _) => 0x0B + 0x20 * Bit(setFlags) + 0x40 * Bit(sub)
        + 0x80 * Bit(wide)
    case AddSubImm(wide, sub, setFlags, _, _, _, _) => 0x11 + 0x20 * Bit(setFlags) + 0x40 * Bit(sub) + 0x80 * Bit(wide)
    case Mul(wide, _, _, _) => 0x1B + 0x80 * Bit(wide)
    case Div(wide, _, _, _, _) => 0x1A + 0x80 * Bit(wide)
    case MovReg(wide, _, _) => 0x2A + 0x80 * Bit(wide)
    case MovWide(wide, kind, _, _, _) => (match kind case MovN => 0x12 case MovZ => 0x52 case MovK => 0x72)
        + 0x80 * Bit(wide)
    case Pair(wide, _, _, _, _, _, mode) => (if mode.PostIndex? then 0x28 else 0x29) + 0x80 * Bit(wide)
    case LdStImm(wide, _, _, _, _, mode) => (if mode.UnsignedOffset? then 0xB9 else 0xB8) + 0x40 * Bit(wide)
    case LdStReg(wide, _, _, _, _) => 0xB8 + 0x40 * Bit(wide)
    case Csel(wide, _, _, _, _) => 0x1A + 0x80 * Bit(wide)
    case BranchCond(_, _) => 0x54
    case BranchReg(_, _) => 0xD6
    case Adr(_, off) => 0x10 + 0x20 * (off % 4)
    case _ => 0
  }

  /** Bits 23 to 21, where they tell instructions apart that share a top byte. */
  function Minor(i: Instr): nat {
    match i
    case Div(_, _, _, _, _) => 6
    case Csel(_, _, _, _, _) => 4
    case LdStImm(_, load, _, _, _, _) => 2 * Bit(load)
    case LdStReg(_, load, _, _, _) => 1 + 2 * Bit(load)
    case _ => 0
  }

  lemma Signed128(v: int) requires -64 <= v < 64 ensures Signed(v % 0x80, 0x80) == v {}
  lemma Signed512(v: int) requires -256 <= v < 256 ensures Signed(v % 0x200, 0x200) == v {}
  lemma Signed19(v: int) requires -0x4_0000 <= v < 0x4_0000 ensures Signed(v % 0x8_0000, 0x8_0000) == v {}
  lemma Signed21(v: int) requires -0x10_0000 <= v < 0x10_0000
      ensures Signed(v / 4 % 0x8_0000 * 4 + v % 4, 0x20_0000) == v {}
  lemma Signed26(v: int) requires -0x200_0000 <= v < 0x200_0000 ensures Signed(v % 0x400_0000, 0x400_0000) == v {}

  // One lemma a class: the rows of the decode table above the class's own do not match.

  lemma DecodeAddSubRegWord(i: Instr, w: nat)
    requires Encodable(i) && i.AddSubReg?
    requires High(w, 24) == TopByte(i) && Unpack(w, ADD_SUB_REG) == Form(i)
    ensures Decode(w) == i
  {
    assert High(w, 24) % 32 == 0x0B;
  }

  lemma DecodeAddSubImmWord(i: Instr, w: nat)
    requires Encodable(i) && i.AddSubImm?
    requires High(w, 24) == TopByte(i) && Unpack(w, ADD_SUB_IMM) == Form(i)
    ensures Decode(w) == i
  {
    assert High(w, 24) % 32 == 0x11;
  }

  lemma DecodeMulWord(i: Instr, w: nat)
    requires Encodable(i) && i.Mul?
    requires High(w, 24) == TopByte(i) && Unpack(w, MUL) == Form(i)
    ensures Decode(w) == i
  {
    assert High(w, 24) % 128 == 0x1B;
    assert High(w, 24) % 32 == 0x1B;
  }

  lemma DecodeDivWord(i: Instr, w: nat)
    requires Encodable(i) && i.Div?
    requires High(w, 24) == TopByte(i) && Unpack(w, DIV) == Form(i)
    requires High(w, 21) % 8 == Minor(i)
    ensures Decode(w) == i
  {
    assert High(w, 24) % 128 == 0x1A;
    assert High(w, 24) % 32 == 0x1A;
  }

  lemma DecodeCselWord(i: Instr, w: nat)
    requires Encodable(i) && i.Csel?
    requires High(w, 24) == TopByte(i) && Unpack(w, CSEL) == Form(i)
    requires High(w, 21) % 8 == Minor(i)
    ensures Decode(w) == i
  {
    assert High(w, 24) % 128 == 0x1A;
    assert High(w, 24) % 32 == 0x1A;
  }

  lemma DecodeMovRegWord(i: Instr, w: nat)
    requires Encodable(i) && i.MovReg?
    requires High(w, 24) == TopByte(i) && Unpack(w, MOV_REG) == Form(i)
    ensures Decode(w) == i
  {
    assert High(w, 24) % 32 == 0x0A && High(w, 24) % 128 == 0x2A;
  }

  lemma DecodeMovWideWord(i: Instr, w: nat)
    requires Encodable(i) && i.MovWide?
    requires High(w, 24) == TopByte(i) && Unpack(w, MOV_WIDE) == Form(i)
    ensures Decode(w) == i
  {
    assert High(w, 24) % 32 == 0x12;
    assert High(w, 24) % 128 == 0x12 || High(w, 24) % 128 == 0x52 || High(w, 24) % 128 == 0x72;
  }

  lemma DecodePairWord(i: Instr, w: nat)
    requires Encodable(i) && i.Pair?
    requires High(w, 24) == TopByte(i) && Unpack(w, PAIR) == Form(i)
    ensures Decode(w) == i
  {
    assert High(w, 24) % 32 == 0x08 || High(w, 24) % 32 == 0x09;
    assert High(w, 24) % 128 == 0x28 || High(w, 24) % 128 == 0x29;
    Signed128(i.scaled);
  }

  lemma DecodeOffsetWord(i: Instr, w: nat)
    requires Encodable(i) && i.LdStImm? && i.mode.UnsignedOffset?
    requires High(w, 24) == TopByte(i) && Unpack(w, LD_ST_IMM) == Form(i)
    ensures Decode(w) == i
  {
    assert High(w, 24) == 0xB9 || High(w, 24) == 0xF9;
    assert High(w, 24) % 32 == 0x19 && (High(w, 24) % 128 == 0x39 || High(w, 24) % 128 == 0x79) && High(w, 24) % 2 == 1;
  }

  lemma DecodeIndexRow(w: nat)
    requires (High(w, 24) == 0xB8 || High(w, 24) == 0xF8) && High(w, 21) % 2 == 0
    ensures Decode(w) == DecodeIndexed(w)
  {
    assert High(w, 24) % 32 == 0x18 && (High(w, 24) % 128 == 0x38 || High(w, 24) % 128 == 0x78) && High(w, 24) % 2 == 0;
  }

  lemma DecodeIndexWord(i: Instr, w: nat)
    requires Encodable(i) && i.LdStImm? && !i.mode.UnsignedOffset?
    requires High(w, 24) == TopByte(i) && Unpack(w, LD_ST_INDEX) == Form(i)
    requires High(w, 21) % 8 == Minor(i)
    ensures Decode(w) == i
  {
    assert High(w, 24) == 0xB8 || High(w, 24) == 0xF8;
    assert High(w, 21) % 2 == 0;
    DecodeIndexRow(w);
    Signed512(i.off);
  }

  lemma DecodeRegisterRow(w: nat)
    requires (High(w, 24) == 0xB8 || High(w, 24) == 0xF8) && High(w, 21) % 2 == 1
    ensures Decode(w) == DecodeRegister(w)
  {
    assert High(w, 24) % 32 == 0x18 && (High(w, 24) % 128 == 0x38 || High(w, 24) % 128 == 0x78) && High(w, 24) % 2 == 0;
  }

  lemma DecodeRegisterWord(i: Instr, w: nat)
    requires Encodable(i) && i.LdStReg?
    requires High(w, 24) == TopByte(i) && Unpack(w, LD_ST_REG) == Form(i)
    requires High(w, 21) % 8 == Minor(i)
    ensures Decode(w) == i
  {
    assert High(w, 24) == 0xB8 || High(w, 24) == 0xF8;
    assert High(w, 21) % 2 == 1;
    DecodeRegisterRow(w);
  }

  lemma DecodeBranchRow(w: nat, top: nat, lo: nat)
    requires top == High(w, 24) && lo < 4 && (top == 0x14 + lo || top == 0x94 + lo)
    ensures Decode(w) == DecodeBranch(w, top)
  {
    hide DecodeBranch;
    assert top % 128 == 0x14 + lo && top % 32 == 0x14 + lo;
  }

  lemma DecodeBranchWord(i: Instr, w: nat)
    requires Encodable(i) && i.Branch?
    requires High(w, 24) / 4 == 5 + 0x20 * Bit(i.link) && Unpack(w, BRANCH) == Form(i)
    ensures Decode(w) == i
  {
    hide Decode, Unpack, High;
    var top := High(w, 24);
    DecodeBranchRow(w, top, top % 4);
    Signed26(i.dist);
  }

  lemma DecodeCondWord(i: Instr, w: nat)
    requires Encodable(i) && i.BranchCond?
    requires High(w, 24) == TopByte(i) && Unpack(w, BRANCH_COND) == Form(i)
    ensures Decode(w) == i
  {
    assert High(w, 24) % 32 == 0x14 && High(w, 24) % 128 == 0x54;
    Signed19(i.dist);
  }

  lemma DecodeJumpWord(i: Instr, w: nat)
    requires Encodable(i) && i.BranchReg?
    requires High(w, 24) == TopByte(i) && Unpack(w, BRANCH_REG) == Form(i)
    ensures Decode(w) == i
  {
    assert High(w, 24) % 32 == 0x16 && High(w, 24) % 128 == 0x56;
  }

  lemma DecodeAdrRow(w: nat, lo: nat)
    requires lo < 4 && High(w, 24) == 0x10 + 0x20 * lo
    ensures Decode(w) == DecodeAdr(w)
  {
    assert High(w, 24) % 32 == 0x10 && High(w, 24) % 128 == 0x10 + 0x20 * lo;
  }

  lemma DecodeAdrWord(i: Instr, w: nat)
    requires Encodable(i) && i.Adr?
    requires High(w, 24) == TopByte(i) && Unpack(w, ADR) == Form(i)
    ensures Decode(w) == i
  {
    DecodeAdrRow(w, i.off % 4);
    Signed21(i.off);
  }

  // Encoded words read as decoding needs.

  lemma DataFills(i: Instr)
    requires Fits(i)
    ensures i.AddSubReg? ==> Fills(Form(i), ADD_SUB_REG, 10)
    ensures i.AddSubImm? ==> Fills(Form(i), ADD_SUB_IMM, 9)
    ensures i.Mul? ==> Fills(Form(i), MUL, 6)
    ensures i.Div? ==> Fills(Form(i), DIV, 8)
    ensures i.Csel? ==> Fills(Form(i), CSEL, 8)
  {
    Pow2Small();
  }

  lemma MoveFills(i: Instr)
    requires Fits(i)
    ensures i.Nop? ==> Fills(Form(i), End.F(0, 32), 1)
    ensures i.MovReg? ==> Fills(Form(i), MOV_REG, 7)
    ensures i.MovWide? ==> Fills(Form(i), MOV_WIDE, 5)
    ensures i.Adr? ==> Fills(Form(i), ADR, 6)
  {
    Pow2Small();
  }

  lemma BranchFills(i: Instr)
    requires Fits(i)
    ensures i.Branch? ==> Fills(Form(i), BRANCH, 3)
    ensures i.BranchCond? ==> Fills(Form(i), BRANCH_COND, 4)
    ensures i.BranchReg? ==> Fills(Form(i), BRANCH_REG, 5)
  {
    Pow2Small();
  }

  lemma PairFills(wide: bool, load: bool, rt: nat, rt2: nat, rn: nat, scaled: int, mode: Mode)
    requires rt < 32 && rt2 < 32 && rn < 32
    ensures Fills(PairForm(wide, load, rt, rt2, rn, scaled, mode), PAIR, 7)
  {
    Pow2Small();
  }

  lemma OffsetFills(wide: bool, load: bool, rt: nat, rn: nat, off: int)
    requires rt < 32 && rn < 32
    ensures Fills(OffsetForm(wide, load, rt, rn, off), LD_ST_IMM, 9)
  {
    Pow2Small();
  }

  lemma IndexFills(wide: bool, load: bool, rt: nat, rn: nat, off: int, pre: bool)
    requires rt < 32 && rn < 32
    ensures Fills(IndexForm(wide, load, rt, rn, off, pre), LD_ST_INDEX, 10)
  {
    Pow2Small();
  }

  lemma RegisterFills(wide: bool, load: bool, rt: nat, rn: nat, rm: nat)
    requires rt < 32 && rn < 32 && rm < 32
    ensures Fills(RegisterForm(wide, load, rt, rn, rm), LD_ST_REG, 11)
  {
    Pow2Small();
  }

  lemma MemoryFills(i: Instr)
    requires Fits(i)
    ensures i.Pair? ==> Fills(Form(i), PAIR, 7)
    ensures i.LdStImm? && i.mode.UnsignedOffset? ==> Fills(Form(i), LD_ST_IMM, 9)
    ensures i.LdStImm? && !i.mode.UnsignedOffset? ==> Fills(Form(i), LD_ST_INDEX, 10)
    ensures i.LdStReg? ==> Fills(Form(i), LD_ST_REG, 11)
  {
    hide Fills, PairForm, OffsetForm, IndexForm, RegisterForm;
    match i
    case Pair(wide, load, rt, rt2, rn, scaled, mode) => PairFills(wide, load, rt, rt2, rn, scaled, mode);
    case LdStImm(wide, load, rt, rn, off, mode) =>
      OffsetFills(wide, load, rt, rn, off);
      IndexFills(wide, load, rt, rn, off, mode.PreIndex?);
    case LdStReg(wide, load, rt, rn, rm) => RegisterFills(wide, load, rt, rn, rm);
    case _ =>
  }

  /** The byte above bit 24 of a packed word whose field boundary `j` lies `k` bits below. */
  lemma Above(f: Fields, shape: Fields, j: nat, m: nat, bit: nat, k: nat)
    requires Fills(f, shape, j + m) && Offset(f, j) + k == bit
    ensures High(Pack(f), bit) == High(PackN(Drop(f, j), m), k)
  {
    PackHigh(f, shape, j + m, j);
    HighHigh(Pack(f), Offset(f, j), k);
  }

  lemma HighSmall(x: nat)
    ensures High(x, 0) == x && High(x, 1) == x / 2 && High(x, 2) == x / 4 && High(x, 3) == x / 8
  {
    assert High(x / 2, 1) == x / 4;
    assert High(x / 2, 2) == High(x / 4, 1);
  }

  // The fields above a boundary, as numbers.

  lemma PackAddSub(op: nat, setFlags: nat, sub: nat, wide: nat)
    ensures PackN(End.F(wide, 1).F(sub, 1).F(setFlags, 1).F(op, 5), 4) ==
        op + 0x20 * setFlags + 0x40 * sub + 0x80 * wide
  {}

  lemma PackTwo(x: nat, k: nat, wide: nat)
    requires k == 8 || k == 10
    ensures PackN(End.F(wide, 1).F(x, k), 2) == x + (if k == 8 then 0x100 else 0x400) * wide
  {
    ShlZero(1);
    if k == 8 { assert Shl(wide, 8) == 0x100 * wide; } else { assert Shl(wide, 10) == 0x400 * wide; }
  }

  /** A register-form opcode from bit 21: `lo` zero bits, then an opcode `x`, then `wide`. */
  lemma PackThree(lo: nat, x: nat, k: nat, wide: nat)
    requires (lo == 1 && k == 9) || (lo == 2 && k == 8) || (lo == 4 && k == 6)
    ensures PackN(End.F(wide, 1).F(x, k).F(0, lo), 3) ==
        (if lo == 1 then 2 else if lo == 2 then 4 else 16) * x + 0x400 * wide
  {
    ShlZero(1);
    if {
      case lo == 1 => assert Shl(wide, 9) == 0x200 * wide; assert Shl(x + 0x200 * wide, 1) == 2 * x + 0x400 * wide;
      case lo == 2 => assert Shl(wide, 8) == 0x100 * wide; assert Shl(x + 0x100 * wide, 2) == 4 * x + 0x400 * wide;
      case lo == 4 => assert Shl(wide, 6) == 0x40 * wide; assert Shl(x + 0x40 * wide, 4) == 16 * x + 0x400 * wide;
    }
  }

  lemma PackAdr(lo: nat)
    ensures PackN(End.F(0, 1).F(lo, 2).F(1, 1).F(0, 4), 4) == 0x10 + 0x20 * lo
  {}

  /** Scaled loads and stores from bit 24. */
  lemma PackOffset(wide: nat)
    ensures PackN(End.F(1, 1).F(wide, 1).F(7, 3).F(1, 3), 4) == 0xB9 + 0x40 * wide
  {}

  /** Loads and stores from bit 21. */
  lemma PackIndexed(wide: nat, load: nat, isReg: nat)
    ensures PackN(End.F(1, 1).F(wide, 1).F(7, 3).F(0, 4).F(load, 1).F(isReg, 1), 6) ==
        0x5C0 + isReg + 2 * load + 0x200 * wide
  {
    assert PackN(End.F(1, 1).F(wide, 1).F(7, 3), 3) == 0x17 + 8 * wide;
    assert PackN(End.F(1, 1).F(wide, 1).F(7, 3).F(0, 4), 4) == 16 * (0x17 + 8 * wide);
  }

  lemma AddSubRegTop(i: Instr, n: nat)
    requires i.AddSubReg? && Fills(Form(i), ADD_SUB_REG, n) && n == 10
    ensures High(Encode(i), 24) == TopByte(i)
  {
    Above(Form(i), ADD_SUB_REG, 6, 4, 24, 0);
    PackAddSub(0x0B, Bit(i.setFlags), Bit(i.sub), Bit(i.wide));
    HighSmall(PackN(Drop(Form(i), 6), 4));
  }

  lemma AddSubImmTop(i: Instr, n: nat)
    requires i.AddSubImm? && Fills(Form(i), ADD_SUB_IMM, n) && n == 9
    ensures High(Encode(i), 24) == TopByte(i)
  {
    Above(Form(i), ADD_SUB_IMM, 5, 4, 24, 0);
    PackAddSub(0x11, Bit(i.setFlags), Bit(i.sub), Bit(i.wide));
    HighSmall(PackN(Drop(Form(i), 5), 4));
  }

  lemma MulTop(i: Instr, n: nat)
    requires i.Mul? && Fills(Form(i), MUL, n) && n == 6
    ensures High(Encode(i), 24) == TopByte(i)
  {
    Above(Form(i), MUL, 4, 2, 24, 3);
    PackTwo(0xD8, 10, Bit(i.wide));
    HighSmall(PackN(Drop(Form(i), 4), 2));
  }

  lemma DivTop(i: Instr, n: nat)
    requires i.Div? && Fills(Form(i), DIV, n) && n == 8
    ensures High(Encode(i), 24) == TopByte(i)
    ensures High(Encode(i), 21) % 8 == Minor(i)
  {
    Above(Form(i), DIV, 5, 3, 24, 3);
    Above(Form(i), DIV, 5, 3, 21, 0);
    PackThree(1, 0x6B, 9, Bit(i.wide));
    HighSmall(PackN(Drop(Form(i), 5), 3));
  }

  lemma CselTop(i: Instr, n: nat)
    requires i.Csel? && Fills(Form(i), CSEL, n) && n == 8
    ensures High(Encode(i), 24) == TopByte(i)
    ensures High(Encode(i), 21) % 8 == Minor(i)
  {
    Above(Form(i), CSEL, 5, 3, 24, 3);
    Above(Form(i), CSEL, 5, 3, 21, 0);
    PackThree(2, 0x35, 8, Bit(i.wide));
    HighSmall(PackN(Drop(Form(i), 5), 3));
  }

  lemma MovRegTop(i: Instr, n: nat)
    requires i.MovReg? && Fills(Form(i), MOV_REG, n) && n == 7
    ensures High(Encode(i), 24) == TopByte(i)
  {
    Above(Form(i), MOV_REG, 4, 3, 24, 3);
    PackThree(4, 0x15, 6, Bit(i.wide));
    HighSmall(PackN(Drop(Form(i), 4), 3));
  }

  lemma MovWideTop(i: Instr, n: nat)
    requires i.MovWide? && Fills(Form(i), MOV_WIDE, n) && n == 5
    ensures High(Encode(i), 24) == TopByte(i)
  {
    Above(Form(i), MOV_WIDE, 3, 2, 24, 1);
    PackTwo(MovOpcode(i.kind), 8, Bit(i.wide));
    HighSmall(PackN(Drop(Form(i), 3), 2));
  }

  lemma AdrTop(i: Instr, n: nat)
    requires i.Adr? && Fills(Form(i), ADR, n) && n == 6
    ensures High(Encode(i), 24) == TopByte(i)
  {
    Above(Form(i), ADR, 2, 4, 24, 0);
    PackAdr(i.off % 4);
    HighSmall(PackN(Drop(Form(i), 2), 4));
  }

  lemma PairTop(i: Instr, n: nat)
    requires i.Pair? && Fills(Form(i), PAIR, n) && n == 7
    ensures High(Encode(i), 24) == TopByte(i)
  {
    Above(Form(i), PAIR, 5, 2, 24, 1);
    PackTwo(PairOpcode(i.mode), 8, Bit(i.wide));
    HighSmall(PackN(Drop(Form(i), 5), 2));
  }

  lemma OffsetTop(i: Instr, n: nat)
    requires i.LdStImm? && i.mode.UnsignedOffset? && Fills(Form(i), LD_ST_IMM, n) && n == 9
    ensures High(Encode(i), 24) == TopByte(i)
  {
    Above(Form(i), LD_ST_IMM, 5, 4, 24, 0);
    PackOffset(Bit(i.wide));
    HighSmall(0xB9 + 0x40 * Bit(i.wide));
  }

  lemma IndexedAbove(f: Fields, shape: Fields, j: nat, wide: nat, load: nat, isReg: nat)
    requires Fills(f, shape, j + 6) && Offset(f, j) == 21
    requires Drop(f, j) == End.F(1, 1).F(wide, 1).F(7, 3).F(0, 4).F(load, 1).F(isReg, 1)
    ensures High(Pack(f), 24) == (0x5C0 + isReg + 2 * load + 0x200 * wide) / 8
    ensures High(Pack(f), 21) == 0x5C0 + isReg + 2 * load + 0x200 * wide
  {
    PackHigh(f, shape, j + 6, j);
    PackIndexed(wide, load, isReg);
    HighHigh(Pack(f), 21, 3);
    HighSmall(0x5C0 + isReg + 2 * load + 0x200 * wide);
  }

  lemma IndexTop(i: Instr, n: nat)
    requires i.LdStImm? && !i.mode.UnsignedOffset? && Fills(Form(i), LD_ST_INDEX, n) && n == 10
    ensures High(Encode(i), 24) == TopByte(i)
    ensures High(Encode(i), 21) % 8 == Minor(i)
  {
    IndexedAbove(Form(i), LD_ST_INDEX, 4, Bit(i.wide), Bit(i.load), 0);
  }

  lemma RegisterTop(i: Instr, n: nat)
    requires i.LdStReg? && Fills(Form(i), LD_ST_REG, n) && n == 11
    ensures High(Encode(i), 24) == TopByte(i)
    ensures High(Encode(i), 21) % 8 == Minor(i)
  {
    IndexedAbove(Form(i), LD_ST_REG, 5, Bit(i.wide), Bit(i.load), 1);
  }

  lemma CondTop(i: Instr, n: nat)
    requires i.BranchCond? && Fills(Form(i), BRANCH_COND, n) && n == 4
    ensures High(Encode(i), 24) == TopByte(i)
  {
    Above(Form(i), BRANCH_COND, 3, 1, 24, 0);
    HighSmall(PackN(Drop(Form(i), 3), 1));
  }

  lemma PackOne(v: nat)
    ensures PackN(End.F(v, 10), 1) == v
  {
    ShlZero(10);
  }

  lemma JumpTop(i: Instr, n: nat)
    requires i.BranchReg? && Fills(Form(i), BRANCH_REG, n) && n == 5
    ensures High(Encode(i), 24) == TopByte(i)
  {
    hide Fills, High;
    Above(Form(i), BRANCH_REG, 4, 1, 24, 2);
    PackOne(if i.jump.Ret? then 0x359 else 0x358);
    HighSmall(if i.jump.Ret? then 0x359 else 0x358);
  }

  lemma Quarter(w: nat)
    ensures High(w, 24) / 4 == High(w, 26)
  {
    HighHigh(w, 24, 2);
    HighSmall(High(w, 24));
  }

  lemma HighRest(f: Fields, shape: Fields, n: nat)
    requires Fills(f, shape, n) && n > 0
    ensures High(Pack(f), f.length) == PackN(f.rest, n - 1)
  {
    PackHigh(f, shape, n, 1);
  }

  lemma PackBranch(link: nat)
    ensures PackN(End.F(link, 1).F(5, 5), 2) == 5 + 0x20 * link
  {}

  lemma BranchTop(i: Instr, f: Fields, n: nat)
    requires i.Branch? && f == Form(i) && Fills(f, BRANCH, n) && n == 3
    ensures High(Pack(f), 26) == 5 + 0x20 * Bit(i.link)
  {
    HighRest(f, BRANCH, n);
    PackBranch(Bit(i.link));
  }

  lemma NopRoundTrip()
    ensures Decode(Encode(Nop)) == Nop
  {
    ShlZero(32);
    NopTop();
    DecodeNop(Encode(Nop));
  }

  lemma NopTop()
    ensures High(0xD503_201F, 24) == 0xD5
  {
    assert Shl(0xD5, 8) == 0xD500;
    assert Shl(0xD5, 16) == 0xD5_0000;
    assert Shl(0xD5, 24) == 0xD500_0000;
    Pow2Small();
    LowHigh(0x03_201F, 0xD5, 24);
  }

  lemma DecodeNop(w: nat)
    requires w == 0xD503_201F && High(w, 24) == 0xD5
    ensures Decode(w) == Nop
  {
    assert High(w, 24) % 32 == 0x15 && High(w, 24) % 128 == 0x55;
  }

  lemma AddSubRegRoundTrip(i: Instr)
    requires Encodable(i) && i.AddSubReg?
    ensures Decode(Encode(i)) == i
  {
    DataFills(i);
    UnpackPack(Form(i), ADD_SUB_REG, 10);
    AddSubRegTop(i, 10);
    DecodeAddSubRegWord(i, Encode(i));
  }

  lemma AddSubImmRoundTrip(i: Instr)
    requires Encodable(i) && i.AddSubImm?
    ensures Decode(Encode(i)) == i
  {
    DataFills(i);
    UnpackPack(Form(i), ADD_SUB_IMM, 9);
    AddSubImmTop(i, 9);
    DecodeAddSubImmWord(i, Encode(i));
  }

  lemma MulRoundTrip(i: Instr)
    requires Encodable(i) && i.Mul?
    ensures Decode(Encode(i)) == i
  {
    DataFills(i);
    UnpackPack(Form(i), MUL, 6);
    MulTop(i, 6);
    DecodeMulWord(i, Encode(i));
  }

  lemma DivRoundTrip(i: Instr)
    requires Encodable(i) && i.Div?
    ensures Decode(Encode(i)) == i
  {
    DataFills(i);
    UnpackPack(Form(i), DIV, 8);
    DivTop(i, 8);
    DecodeDivWord(i, Encode(i));
  }

  lemma CselRoundTrip(i: Instr)
    requires Encodable(i) && i.Csel?
    ensures Decode(Encode(i)) == i
  {
    DataFills(i);
    UnpackPack(Form(i), CSEL, 8);
    CselTop(i, 8);
    DecodeCselWord(i, Encode(i));
  }

  lemma MovRegRoundTrip(i: Instr)
    requires Encodable(i) && i.MovReg?
    ensures Decode(Encode(i)) == i
  {
    MoveFills(i);
    UnpackPack(Form(i), MOV_REG, 7);
    MovRegTop(i, 7);
    DecodeMovRegWord(i, Encode(i));
  }

  lemma MovWideRoundTrip(i: Instr)
    requires Encodable(i) && i.MovWide?
    ensures Decode(Encode(i)) == i
  {
    MoveFills(i);
    UnpackPack(Form(i), MOV_WIDE, 5);
    MovWideTop(i, 5);
    DecodeMovWideWord(i, Encode(i));
  }

  lemma AdrRoundTrip(i: Instr)
    requires Encodable(i) && i.Adr?
    ensures Decode(Encode(i)) == i
  {
    MoveFills(i);
    UnpackPack(Form(i), ADR, 6);
    AdrTop(i, 6);
    DecodeAdrWord(i, Encode(i));
  }

  lemma PairRoundTrip(i: Instr)
    requires Encodable(i) && i.Pair?
    ensures Decode(Encode(i)) == i
  {
    MemoryFills(i);
    UnpackPack(Form(i), PAIR, 7);
    PairTop(i, 7);
    DecodePairWord(i, Encode(i));
  }

  lemma OffsetRoundTrip(i: Instr)
    requires Encodable(i) && i.LdStImm? && i.mode.UnsignedOffset?
    ensures Decode(Encode(i)) == i
  {
    MemoryFills(i);
    UnpackPack(Form(i), LD_ST_IMM, 9);
    OffsetTop(i, 9);
    DecodeOffsetWord(i, Encode(i));
  }

  lemma IndexRoundTrip(i: Instr)
    requires Encodable(i) && i.LdStImm? && !i.mode.UnsignedOffset?
    ensures Decode(Encode(i)) == i
  {
    MemoryFills(i);
    UnpackPack(Form(i), LD_ST_INDEX, 10);
    IndexTop(i, 10);
    DecodeIndexWord(i, Encode(i));
  }

  lemma RegisterRoundTrip(i: Instr)
    requires Encodable(i) && i.LdStReg?
    ensures Decode(Encode(i)) == i
  {
    MemoryFills(i);
    UnpackPack(Form(i), LD_ST_REG, 11);
    RegisterTop(i, 11);
    DecodeRegisterWord(i, Encode(i));
  }

  lemma BranchRoundTrip(i: Instr)
    requires Encodable(i) && i.Branch?
    ensures Decode(Encode(i)) == i
  {
    BranchFills(i);
    UnpackPack(Form(i), BRANCH, 3);
    BranchTop(i, Form(i), 3);
    Quarter(Encode(i));
    DecodeBranchWord(i, Encode(i));
  }

  lemma CondRoundTrip(i: Instr)
    requires Encodable(i) && i.BranchCond?
    ensures Decode(Encode(i)) == i
  {
    BranchFills(i);
    UnpackPack(Form(i), BRANCH_COND, 4);
    CondTop(i, 4);
    DecodeCondWord(i, Encode(i));
  }

  lemma JumpRoundTrip(i: Instr)
    requires Encodable(i) && i.BranchReg?
    ensures Decode(Encode(i)) == i
  {
    BranchFills(i);
    UnpackPack(Form(i), BRANCH_REG, 5);
    JumpTop(i, 5);
    DecodeJumpWord(i, Encode(i));
  }

  /** Decoding undoes encoding for every instruction whose operands fit their fields. */
  lemma RoundTrip(i: Instr)
    requires Encodable(i)
    ensures Decode(Encode(i)) == i
  {
    match i
    case Nop => NopRoundTrip();
    case AddSubReg(_, _, _, _, _, _, _, _) => AddSubRegRoundTrip(i);
    case AddSubImm(_, _, _, _, _, _, _) => AddSubImmRoundTrip(i);
    case Mul(_, _, _, _) => MulRoundTrip(i);
    case Div(_, _, _, _, _) => DivRoundTrip(i);
    case Csel(_, _, _, _, _) => CselRoundTrip(i);
    case MovReg(_, _, _) => MovRegRoundTrip(i);
    case MovWide(_, _, _, _, _) => MovWideRoundTrip(i);
    case Adr(_, _) => AdrRoundTrip(i);
    case Pair(_, _, _, _, _, _, _) => PairRoundTrip(i);
    case LdStReg(_, _, _, _, _) => RegisterRoundTrip(i);
    case LdStImm(_, _, _, _, _, mode) => if mode.UnsignedOffset? { OffsetRoundTrip(i); } else { IndexRoundTrip(i); }
    case Branch(_, _) => BranchRoundTrip(i);
    case BranchCond(_, _) => CondRoundTrip(i);
    case BranchReg(_, _) => JumpRoundTrip(i);
  }

  /** The distance that a branch's bits stand for, and that the machine goes. */
  function Wrapped(i: Instr): Instr {
    match i
    case Branch(link, dist) => Branch(link, Signed(dist % 0x400_0000, 0x400_0000))
    case BranchCond(cond, dist) => BranchCond(cond, Signed(dist % 0x8_0000, 0x8_0000))
    case _ => i
  }

  lemma WrappedForm(i: Instr)
    requires (i.Branch? || i.BranchCond?) && Fits(i)
    ensures Encodable(Wrapped(i)) && Form(Wrapped(i)) == Form(i) && (Wrapped(i) == i <==> Encodable(i))
  {
    match i
    case Branch(_, dist) =>
      WrapsBack(dist % 0x400_0000, 0x400_0000);
      if Encodable(i) {
        Signed26(dist);
      }
    case BranchCond(_, dist) =>
      WrapsBack(dist % 0x8_0000, 0x8_0000);
      if Encodable(i) {
        Signed19(dist);
      }
  }

  lemma WrapsBack(u: nat, span: int)
    requires u < span && (span == 0x400_0000 || span == 0x8_0000)
    ensures Signed(u, span) % span == u && -span <= 2 * Signed(u, span) < span
  {}

  /** A branch is decoded as its distance wrapped around, so as what was asked for exactly when that has an encoding. */
  lemma BranchExactly(i: Instr)
    requires (i.Branch? || i.BranchCond?) && Fits(i)
    ensures Decode(Encode(i)) == Wrapped(i) && (Decode(Encode(i)) == i <==> Encodable(i))
  {
    hide Decode, Form, Encodable, Wrapped;
    WrappedForm(i);
    RoundTrip(Wrapped(i));
  }
}
