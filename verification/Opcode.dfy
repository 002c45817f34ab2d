/**
 The builder of instruction words: values are OR-ed into a word one after the other. Each encoder of include/Opcode
 builds exactly the word of its diagram, because it only ever writes bits that are still zero.
 */
module Opcode {
  import opened Bits
  import opened Isa
  import opened Results
  import opened HexText

  // Single bits.

  function BitAt(w: nat, b: nat): nat { High(w, b) % 2 }

  /** The bits of `w` from `lo` up to `hi` are zero. */
  ghost predicate Clear(w: nat, lo: nat, hi: nat) { forall b: nat :: lo <= b < hi ==> BitAt(w, b) == 0 }

  lemma {:induction false} HighZero(b: nat)
    ensures High(0, b) == 0
    decreases b
  {
    if b > 0 {
      HighZero(b - 1);
    }
  }

  lemma {:induction false} OrBit(x: nat, y: nat, b: nat)
    ensures BitAt(BitOr(x, y), b) == if BitAt(x, b) == 1 || BitAt(y, b) == 1 then 1 else 0
    decreases b
  {
    OrUnfold(x, y);
    if b > 0 {
      OrBit(x / 2, y / 2, b - 1);
    }
  }

  /** The bits of a shifted value lie where it was shifted to. */
  lemma {:induction false} ShlBit(v: nat, width: nat, offset: nat, b: nat)
    requires v < Pow2(width) && !(offset <= b < offset + width)
    ensures BitAt(Shl(v, offset), b) == 0
    decreases b, width
  {
    if offset > 0 {
      if b > 0 {
        ShlBit(v, width, offset - 1, b - 1);
      }
    } else if width == 0 {
      HighZero(b);
    } else if b > 0 {
      ShlBit(v / 2, width - 1, 0, b - 1);
    }
  }

  /** OR-ing a value into zero bits adds it. */
  lemma {:induction false} OrAdds(w: nat, v: nat, width: nat, offset: nat)
    requires v < Pow2(width) && Clear(w, offset, offset + width)
    ensures BitOr(w, Shl(v, offset)) == w + Shl(v, offset)
    decreases offset, width
  {
    OrUnfold(w, Shl(v, offset));
    if offset > 0 {
      ClearHalf(w, offset, offset + width);
      OrAdds(w / 2, v, width, offset - 1);
    } else if width == 0 {
      OrZero(w);
    } else {
      assert BitAt(w, 0) == 0;
      ClearHalf(w, 1, width);
      OrAdds(w / 2, v / 2, width - 1, 0);
    }
  }

  lemma ClearHalf(w: nat, lo: nat, hi: nat)
    requires 0 < lo && Clear(w, lo, hi)
    ensures hi > 0 ==> Clear(w / 2, lo - 1, hi - 1)
  {
    forall b: nat | lo - 1 <= b < hi - 1 ensures BitAt(w / 2, b) == 0 {
      assert BitAt(w, b + 1) == 0;
    }
  }

  lemma {:induction false} OrAssociates(x: nat, y: nat, z: nat)
    ensures BitOr(BitOr(x, y), z) == BitOr(x, BitOr(y, z))
    decreases x + y + z
  {
    OrUnfold(x, y);
    OrUnfold(y, z);
    OrUnfold(BitOr(x, y), z);
    OrUnfold(x, BitOr(y, z));
    if x + y + z > 0 {
      OrAssociates(x / 2, y / 2, z / 2);
    } else {
      OrZero(0);
    }
  }

  // Values written one after the other.

  /** Values with the bits they are written to, the last one first. */
  datatype Parts = Nothing | More(value: nat, offset: nat, width: nat, before: Parts) {
    function P(value: nat, offset: nat, width: nat): Parts { More(value, offset, width, this) }
  }

  function OrOf(ps: Parts, n: nat): nat
    decreases n
  {
    if n == 0 || ps.Nothing? then 0 else BitOr(OrOf(ps.before, n - 1), Shl(ps.value, ps.offset))
  }

  function SumOf(ps: Parts, n: nat): nat
    decreases n
  {
    if n == 0 || ps.Nothing? then 0 else SumOf(ps.before, n - 1) + Shl(ps.value, ps.offset)
  }

  /** No part has a bit from `lo` up to `hi`. */
  predicate Avoids(ps: Parts, lo: nat, hi: nat, n: nat)
    decreases n
  {
    n == 0 || ps.Nothing? || ((hi <= ps.offset || ps.offset + ps.width <= lo) && Avoids(ps.before, lo, hi, n - 1))
  }

  /** The values fit their bits, and no two parts share a bit. */
  predicate Disjoint(ps: Parts, n: nat)
    decreases n
  {
    n == 0 || ps.Nothing?
    || (ps.value < Pow2(ps.width) && Avoids(ps.before, ps.offset, ps.offset + ps.width, n - 1)
        && Disjoint(ps.before, n - 1))
  }

  lemma {:induction false} AvoidsClear(ps: Parts, lo: nat, hi: nat, n: nat)
    requires Disjoint(ps, n) && Avoids(ps, lo, hi, n)
    ensures Clear(OrOf(ps, n), lo, hi)
    decreases n
  {
    hide BitAt, Shl, BitOr;
    if n == 0 || ps.Nothing? {
      forall b: nat ensures BitAt(0, b) == 0 {
        ZeroBit(b);
      }
    } else {
      AvoidsClear(ps.before, lo, hi, n - 1);
      forall b: nat | lo <= b < hi ensures BitAt(OrOf(ps, n), b) == 0 {
        ShlBit(ps.value, ps.width, ps.offset, b);
        OrBit(OrOf(ps.before, n - 1), Shl(ps.value, ps.offset), b);
      }
    }
  }

  lemma ZeroBit(b: nat)
    ensures BitAt(0, b) == 0
  {
    HighZero(b);
  }

  /** OR-ing values into bits of their own adds them up. */
  lemma {:induction false} OrIsSum(ps: Parts, n: nat)
    requires Disjoint(ps, n)
    ensures OrOf(ps, n) == SumOf(ps, n)
    decreases n
  {
    hide BitAt, Shl, BitOr;
    if n > 0 && ps.More? {
      OrIsSum(ps.before, n - 1);
      AvoidsClear(ps.before, ps.offset, ps.offset + ps.width, n - 1);
      OrAdds(OrOf(ps.before, n - 1), ps.value, ps.width, ps.offset);
    }
  }

  // A word as the sum of its fields.

  /** The values of `n` fields, each shifted to its place. */
  function Sum(f: Fields, offset: nat, n: nat): nat
    decreases n
  {
    if n == 0 || f.End? then 0 else Shl(f.value, offset) + Sum(f.rest, offset + f.length, n - 1)
  }

  lemma {:induction false} ShlSum(x: nat, y: nat, k: nat)
    ensures Shl(x + y, k) == Shl(x, k) + Shl(y, k)
    decreases k
  {
    if k > 0 {
      ShlSum(x, y, k - 1);
    }
  }

  lemma {:induction false} SumShift(f: Fields, offset: nat, k: nat, n: nat)
    ensures Sum(f, offset + k, n) == Shl(Sum(f, offset, n), k)
    decreases n
  {
    if n == 0 || f.End? {
      ShlZero(k);
    } else {
      SumShift(f.rest, offset + f.length, k, n - 1);
      ShlShl(f.value, k, offset);
      ShlSum(Shl(f.value, offset), Sum(f.rest, offset + f.length, n - 1), k);
    }
  }

  /** A word is the sum of its fields. */
  lemma {:induction false} PackSum(f: Fields, shape: Fields, n: nat)
    requires Fills(f, shape, n)
    ensures Pack(f) == Sum(f, 0, n)
    decreases n
  {
    if n > 0 {
      PackSum(f.rest, shape.rest, n - 1);
      SumShift(f.rest, 0, f.length, n - 1);
    }
  }

  /** Writing the parts one after the other gives the word of the fields when both have the same sum. */
  lemma BuildsWord(i: Instr, f: Fields, shape: Fields, n: nat, ps: Parts, m: nat)
    requires Form(i) == f && Fills(f, shape, n) && Disjoint(ps, m) && SumOf(ps, m) == Sum(f, 0, n)
    ensures OrOf(ps, m) == Encode(i)
  {
    hide Form, Fills, Sum, Disjoint, SumOf, OrOf;
    PackSum(f, shape, n);
    OrIsSum(ps, m);
  }

  lemma ModSmall(v: nat, p: nat)
    requires v < p
    ensures v % p == v
  {}

  /** A number cut to its low `length` bits. */
  function Masked(val: int, length: nat): (r: nat)
    ensures 0 <= val < Pow2(length) ==> r == val
  {
    OneBit(length);
    if 0 <= val < Pow2(length) then val else val % Pow2(length)
  }

  lemma MaskedMod(val: int, length: nat)
    ensures 0 < Pow2(length) && Masked(val, length) == val % Pow2(length) < Pow2(length)
  {
    OneBit(length);
    if 0 <= val < Pow2(length) {
      ModSmall(val, Pow2(length));
    }
  }

  class Arm64Opcode {
    var inst: nat

    constructor ()
      ensures inst == 0
    {
      inst := 0;
    }

    /** ORs a value into the word. One too large for its length is refused; a negative one is cut to it. */
    method SetField(val: int, offset: nat, length: nat) returns (s: Status)
      modifies this
      ensures s == if val < Pow2(length) then Done else Failed(OutOfRange)
      ensures inst == if s.Done? then BitOr(old(inst), Shl(Masked(val, length), offset)) else old(inst)
    {
      if val >= Pow2(length) {
        return Failed(OutOfRange);
      }
      inst := BitOr(inst, Shl(Masked(val, length), offset));
      return Done;
    }

    /** `SetField` with a value that is never refused. */
    method SetConstant(val: nat, offset: nat, length: nat)
      requires val < Pow2(length)
      modifies this
      ensures inst == BitOr(old(inst), Shl(val, offset))
    {
      var _ := SetField(val, offset, length);
    }

    /** The word as text, its bytes swapped first. */
    method GetInstruction() returns (text: string)
      modifies this
      ensures text == WordText(old(inst)) && inst == ByteSwap(old(inst))
    {
      SwapText(inst);
      inst := ByteSwap(inst);
      return HexWord(inst);
    }
  }

  /** The text of an instruction. */
  function InstrText(i: Instr): string { WordText(Encode(i)) }

  lemma NopBuilt()
    ensures BitOr(0, Shl(0xD503_201F, 0)) == Encode(Nop)
  {
    ShlZero(32);
    OrZero(0xD503_201F);
    hide BitOr;
    assert Shl(0xD503_201F, 0) == 0xD503_201F;
  }

  method EncodeNop() returns (r: Result<string>)
    ensures r == Ok(InstrText(Nop))
  {
    hide WordText, Shl, BitOr, Encode;
    Pow2Small();
    NopBuilt();
    var o := new Arm64Opcode();
    o.SetConstant(0xD503_201F, 0, 32);
    var text := o.GetInstruction();
    return Ok(text);
  }

  // Arithmetic.

  function AddSubRegParts(wide: bool, sub: bool, setFlags: bool, rd: nat, rn: nat, rm: nat, shift: nat,
      amount: nat): Parts {
    Nothing.P(Bit(wide), 31, 1).P(0xB, 24, 5).P(Bit(sub), 30, 1).P(Bit(setFlags), 29, 1).P(shift, 22, 2).P(rm, 16, 5)
        .P(rn, 5, 5).P(rd, 0, 5)
        .P(amount, 10, 6)
  }

  lemma AddSubRegSums(wide: bool, sub: bool, setFlags: bool, rd: nat, rn: nat, rm: nat, shift: nat, amount: nat)
    ensures SumOf(AddSubRegParts(wide, sub, setFlags, rd, rn, rm, shift, amount), 9) ==
        Sum(AddSubRegForm(wide, sub, setFlags, rd, rn, rm, shift, amount), 0, 10)
  {
    hide Shl, Bit;
    ShlZero(21);
  }

  lemma AddSubRegBuilt(wide: bool, sub: bool, setFlags: bool, rd: nat, rn: nat, rm: nat, shift: nat, amount: nat)
    requires rd < 32 && rn < 32 && rm < 32 && shift < 4 && amount < 64
    ensures OrOf(AddSubRegParts(wide, sub, setFlags, rd, rn, rm, shift, amount), 9) ==
        Encode(AddSubReg(wide, sub, setFlags, rd, rn, rm, shift, amount))
  {
    hide Pow2, Fills, Sum, SumOf, OrOf, Encode, AddSubRegForm;
    Pow2Small();
    DataFills(AddSubReg(wide, sub, setFlags, rd, rn, rm, shift, amount));
    AddSubRegSums(wide, sub, setFlags, rd, rn, rm, shift, amount);
    BuildsWord(AddSubReg(wide, sub, setFlags, rd, rn, rm, shift, amount),
        AddSubRegForm(wide, sub, setFlags, rd, rn, rm, shift, amount),
        ADD_SUB_REG, 10, AddSubRegParts(wide, sub, setFlags, rd, rn, rm, shift, amount), 9);
  }

  method EncodeAddSubShift(isSub: bool, wide: bool, rd: nat, rn: nat, rm: nat, imm: nat, shift: nat, isCmp: bool)
      returns (r: Result<string>)
    ensures r == if rd < 32 && rn < 32 && rm < 32 && imm < 64 && shift < 4
        then Ok(InstrText(AddSubReg(wide, isSub, isCmp, rd, rn, rm, shift, imm)))
        else Err(OutOfRange)
  {
    hide Pow2, Shl, WordText, Encode, BitOr, Masked, ByteSwap;
    Pow2Small();
    var o := new Arm64Opcode();
    o.SetConstant(Bit(wide), 31, 1);
    o.SetConstant(0xB, 24, 32);
    o.SetConstant(Bit(isSub), 30, 32);
    o.SetConstant(Bit(isCmp), 29, 32);
    :- o.SetField(shift, 22, 2);
    :- o.SetField(rm, 16, 5);
    :- o.SetField(rn, 5, 5);
    :- o.SetField(rd, 0, 5);
    :- o.SetField(imm, 10, 6);
    AddSubRegBuilt(wide, isSub, isCmp, rd, rn, rm, shift, imm);
    var text := o.GetInstruction();
    return Ok(text);
  }

  function AddSubImmParts(wide: bool, sub: bool, setFlags: bool, rd: nat, rn: nat, imm: nat, shifted: bool): Parts {
    Nothing.P(Bit(wide), 31, 1).P(Bit(sub), 30, 1).P(Bit(setFlags), 29, 1).P(0x11, 24, 5).P(Bit(shifted), 22, 1)
        .P(imm, 10, 12).P(rn, 5, 5)
        .P(rd, 0, 5)
  }

  lemma AddSubImmSums(wide: bool, sub: bool, setFlags: bool, rd: nat, rn: nat, imm: nat, shifted: bool)
    ensures SumOf(AddSubImmParts(wide, sub, setFlags, rd, rn, imm, shifted), 8) ==
        Sum(AddSubImmForm(wide, sub, setFlags, rd, rn, imm, shifted), 0, 9)
  {
    hide Shl, Bit;
    ShlZero(23);
  }

  lemma AddSubImmBuilt(wide: bool, sub: bool, setFlags: bool, rd: nat, rn: nat, imm: nat, shifted: bool)
    requires rd < 32 && rn < 32 && imm < 4096
    ensures OrOf(AddSubImmParts(wide, sub, setFlags, rd, rn, imm, shifted), 8) ==
        Encode(AddSubImm(wide, sub, setFlags, rd, rn, imm, shifted))
  {
    hide Pow2, Fills, Sum, SumOf, OrOf, Encode, AddSubImmForm;
    Pow2Small();
    DataFills(AddSubImm(wide, sub, setFlags, rd, rn, imm, shifted));
    AddSubImmSums(wide, sub, setFlags, rd, rn, imm, shifted);
    BuildsWord(AddSubImm(wide, sub, setFlags, rd, rn, imm, shifted),
        AddSubImmForm(wide, sub, setFlags, rd, rn, imm, shifted), ADD_SUB_IMM,
        9, AddSubImmParts(wide, sub, setFlags, rd, rn, imm, shifted), 8);
  }

  method EncodeAddSubImm(wide: bool, isSub: bool, rd: nat, rn: nat, imm: nat, shift: nat, setFlag: bool)
      returns (r: Result<string>)
    ensures r == if rd < 32 && rn < 32 && imm < 4096 && shift < 2
        then Ok(InstrText(AddSubImm(wide, isSub, setFlag, rd, rn, imm, shift == 1)))
        else Err(OutOfRange)
  {
    hide Pow2, Shl, WordText, Encode, BitOr, Masked, ByteSwap;
    Pow2Small();
    var o := new Arm64Opcode();
    o.SetConstant(Bit(wide), 31, 1);
    o.SetConstant(Bit(isSub), 30, 32);
    o.SetConstant(Bit(setFlag), 29, 32);
    o.SetConstant(0x11, 24, 32);
    :- o.SetField(shift, 22, 1);
    :- o.SetField(imm, 10, 12);
    :- o.SetField(rn, 5, 5);
    :- o.SetField(rd, 0, 5);
    AddSubImmBuilt(wide, isSub, setFlag, rd, rn, imm, shift == 1);
    var text := o.GetInstruction();
    return Ok(text);
  }

  lemma {:induction false} ShlTimes(x: nat, k: nat)
    ensures Shl(x, k) == x * Pow2(k)
    decreases k
  {
    if k > 0 {
      ShlTimes(x, k - 1);
    }
  }

  lemma Powers()
    ensures Pow2(0) == 1 && Pow2(6) == 0x40 && Pow2(10) == 0x400 && Pow2(11) == 0x800 && Pow2(21) == 0x20_0000
        && Pow2(22) == 0x40_0000
  {
    Pow2Small();
    assert Pow2(21) == 2 * Pow2(20) && Pow2(20) == 2 * Pow2(19);
  }

  lemma Apart(u: nat, v: nat, k: nat, j: nat, width: nat)
    requires u < Pow2(32) && v < Pow2(width) && j + width <= k
    ensures BitOr(Shl(u, k), Shl(v, j)) == Shl(u, k) + Shl(v, j)
  {
    var ps := Nothing.P(u, k, 32).P(v, j, width);
    OrZero(Shl(u, k));
    OrIsSum(ps, 2);
  }

  /** A constant of two pieces, written at once, is written as if piece by piece. */
  lemma TwoPieces(w: nat, c: nat, at: nat, u: nat, k: nat, v: nat, j: nat, width: nat)
    requires u < Pow2(32) && v < Pow2(width) && j + width <= k && Shl(c, at) == Shl(u, k) + Shl(v, j)
    ensures BitOr(w, Shl(c, at)) == BitOr(BitOr(w, Shl(u, k)), Shl(v, j))
  {
    hide Shl, BitOr;
    Apart(u, v, k, j, width);
    OrAssociates(w, Shl(u, k), Shl(v, j));
  }

  function MulParts(wide: bool, rd: nat, rn: nat, rm: nat): Parts {
    Nothing.P(Bit(wide), 31, 1).P(0xD8, 21, 10).P(0x1F, 10, 6).P(rm, 16, 5).P(rn, 5, 5).P(rd, 0, 5)
  }

  lemma MulSums(wide: bool, rd: nat, rn: nat, rm: nat)
    ensures SumOf(MulParts(wide, rd, rn, rm), 6) == Sum(MulForm(wide, rd, rn, rm), 0, 6)
  {
    hide Shl, Bit;
  }

  lemma MulBuilt(wide: bool, rd: nat, rn: nat, rm: nat)
    requires rd < 32 && rn < 32 && rm < 32
    ensures OrOf(MulParts(wide, rd, rn, rm), 6) == Encode(Isa.Mul(wide, rd, rn, rm))
  {
    hide Pow2, Fills, Sum, SumOf, OrOf, Encode, MulForm;
    Pow2Small();
    DataFills(Isa.Mul(wide, rd, rn, rm));
    MulSums(wide, rd, rn, rm);
    BuildsWord(Isa.Mul(wide, rd, rn, rm), MulForm(wide, rd, rn, rm), MUL, 6, MulParts(wide, rd, rn, rm), 6);
  }

  /** MADD with the zero register: its fixed bits as one constant. */
  lemma MulConstant(w: nat)
    ensures BitOr(w, Shl(0x1B00_7C00, 0)) == BitOr(BitOr(w, Shl(0xD8, 21)), Shl(0x1F, 10))
  {
    hide Shl, BitOr;
    ShlTimes(0x1B00_7C00, 0);
    ShlTimes(0xD8, 21);
    ShlTimes(0x1F, 10);
    Powers();
    Pow2Small();
    TwoPieces(w, 0x1B00_7C00, 0, 0xD8, 21, 0x1F, 10, 6);
  }

  method EncodeMul(wide: bool, rd: nat, rn: nat, rm: nat) returns (r: Result<string>)
    ensures r == if rd < 32 && rn < 32 && rm < 32 then Ok(InstrText(Isa.Mul(wide, rd, rn, rm))) else Err(OutOfRange)
  {
    hide Pow2, Shl, WordText, Encode, BitOr, Masked, ByteSwap;
    Pow2Small();
    var o := new Arm64Opcode();
    o.SetConstant(Bit(wide), 31, 1);
    MulConstant(o.inst);
    o.SetConstant(0x1B00_7C00, 0, 32);
    :- o.SetField(rm, 16, 5);
    :- o.SetField(rn, 5, 5);
    :- o.SetField(rd, 0, 5);
    MulBuilt(wide, rd, rn, rm);
    var text := o.GetInstruction();
    return Ok(text);
  }

  function DivParts(wide: bool, signed: bool, rd: nat, rn: nat, rm: nat): Parts {
    Nothing.P(Bit(wide), 31, 1).P(0x6B, 22, 9).P(1, 11, 5).P(Bit(signed), 10, 1).P(rm, 16, 5).P(rn, 5, 5).P(rd, 0, 5)
  }

  lemma DivSums(wide: bool, signed: bool, rd: nat, rn: nat, rm: nat)
    ensures SumOf(DivParts(wide, signed, rd, rn, rm), 7) == Sum(DivForm(wide, signed, rd, rn, rm), 0, 8)
  {
    hide Shl, Bit;
    ShlZero(21);
  }

  lemma DivBuilt(wide: bool, signed: bool, rd: nat, rn: nat, rm: nat)
    requires rd < 32 && rn < 32 && rm < 32
    ensures OrOf(DivParts(wide, signed, rd, rn, rm), 7) == Encode(Isa.Div(wide, signed, rd, rn, rm))
  {
    hide Pow2, Fills, Sum, SumOf, OrOf, Encode, DivForm;
    Pow2Small();
    DataFills(Isa.Div(wide, signed, rd, rn, rm));
    DivSums(wide, signed, rd, rn, rm);
    BuildsWord(Isa.Div(wide, signed, rd, rn, rm), DivForm(wide, signed, rd, rn, rm), DIV, 8,
        DivParts(wide, signed, rd, rn, rm), 7);
  }

  method EncodeDiv(wide: bool, isSigned: bool, rd: nat, rn: nat, rm: nat) returns (r: Result<string>)
    ensures r == if rd < 32 && rn < 32 && rm < 32
        then Ok(InstrText(Isa.Div(wide, isSigned, rd, rn, rm)))
        else Err(OutOfRange)
  {
    hide Pow2, Shl, WordText, Encode, BitOr, Masked, ByteSwap;
    Pow2Small();
    var o := new Arm64Opcode();
    o.SetConstant(Bit(wide), 31, 1);
    o.SetConstant(0x6B, 22, 32);
    o.SetConstant(1, 11, 32);
    o.SetConstant(Bit(isSigned), 10, 32);
    :- o.SetField(rm, 16, 5);
    :- o.SetField(rn, 5, 5);
    :- o.SetField(rd, 0, 5);
    DivBuilt(wide, isSigned, rd, rn, rm);
    var text := o.GetInstruction();
    return Ok(text);
  }

  // Comparison.

  function CselParts(wide: bool, rd: nat, rn: nat, rm: nat, cond: nat): Parts {
    Nothing.P(Bit(wide), 31, 1).P(0x35, 23, 8).P(rd, 0, 5).P(rm, 16, 5).P(rn, 5, 5).P(cond, 12, 4)
  }

  lemma CselSums(wide: bool, rd: nat, rn: nat, rm: nat, cond: nat)
    ensures SumOf(CselParts(wide, rd, rn, rm, cond), 6) == Sum(CselForm(wide, rd, rn, rm, cond), 0, 8)
  {
    hide Shl, Bit;
    ShlZero(10);
    ShlZero(21);
  }

  lemma CselBuilt(wide: bool, rd: nat, rn: nat, rm: nat, cond: nat)
    requires rd < 32 && rn < 32 && rm < 32 && cond < 16
    ensures OrOf(CselParts(wide, rd, rn, rm, cond), 6) == Encode(Csel(wide, rd, rn, rm, cond))
  {
    hide Pow2, Fills, Sum, SumOf, OrOf, Encode, CselForm;
    Pow2Small();
    DataFills(Csel(wide, rd, rn, rm, cond));
    CselSums(wide, rd, rn, rm, cond);
    BuildsWord(Csel(wide, rd, rn, rm, cond), CselForm(wide, rd, rn, rm, cond), CSEL, 8,
        CselParts(wide, rd, rn, rm, cond), 6);
  }

  method EncodeCsel(wide: bool, rd: nat, rn: nat, rm: nat, cond: nat) returns (r: Result<string>)
    ensures r == if rd < 32 && rn < 32 && rm < 32 && cond < 16
        then Ok(InstrText(Csel(wide, rd, rn, rm, cond)))
        else Err(OutOfRange)
  {
    hide Pow2, Shl, WordText, Encode, BitOr, Masked, ByteSwap;
    Pow2Small();
    var o := new Arm64Opcode();
    o.SetConstant(Bit(wide), 31, 1);
    o.SetConstant(0x35, 23, 32);
    :- o.SetField(rd, 0, 5);
    :- o.SetField(rm, 16, 5);
    :- o.SetField(rn, 5, 5);
    :- o.SetField(cond, 12, 4);
    CselBuilt(wide, rd, rn, rm, cond);
    var text := o.GetInstruction();
    return Ok(text);
  }

  method EncodeCompareNegativeShift(wide: bool, rn: nat, rm: nat, imm6: nat, shift: nat) returns (r: Result<string>)
    ensures r == if rn < 32 && rm < 32 && imm6 < 64 && shift < 4
        then Ok(InstrText(AddSubReg(wide, false, true, 31, rn, rm, shift, imm6)))
        else Err(OutOfRange)
  {
    r := EncodeAddSubShift(false, wide, 31, rn, rm, imm6, shift, true);
  }

  method EncodeCompareShift(wide: bool, rn: nat, rm: nat, imm6: nat := 0, shift: nat := 0) returns (r: Result<string>)
    ensures r == if rn < 32 && rm < 32 && imm6 < 64 && shift < 4
        then Ok(InstrText(AddSubReg(wide, true, true, 31, rn, rm, shift, imm6)))
        else Err(OutOfRange)
  {
    r := EncodeAddSubShift(true, wide, 31, rn, rm, imm6, shift, true);
  }

  method EncodeCompareImm(wide: bool, rn: nat, imm12: nat, shift: bool := false) returns (r: Result<string>)
    ensures r == if rn < 32 && imm12 < 4096 then Ok(InstrText(AddSubImm(wide, true, true, 31, rn, imm12, shift)))
        else Err(OutOfRange)
  {
    r := EncodeAddSubImm(wide, true, 31, rn, imm12, Bit(shift), true);
  }

  // Moves.

  method EncodeMovSP(wide: bool, rd: nat, rn: nat) returns (r: Result<string>)
    ensures r == if rd < 32 && rn < 32 then Ok(InstrText(AddSubImm(wide, false, false, rd, rn, 0, false)))
        else Err(OutOfRange)
  {
    r := EncodeAddSubImm(wide, false, rd, rn, 0, 0, false);
  }

  function MovRegParts(wide: bool, rd: nat, rm: nat): Parts {
    Nothing.P(Bit(wide), 31, 1).P(rm, 16, 5).P(rd, 0, 5).P(0x15, 25, 6).P(31, 5, 5)
  }

  lemma MovRegSums(wide: bool, rd: nat, rm: nat)
    ensures SumOf(MovRegParts(wide, rd, rm), 5) == Sum(MovRegForm(wide, rd, rm), 0, 7)
  {
    hide Shl, Bit;
    ShlZero(10);
    ShlZero(21);
  }

  lemma MovRegBuilt(wide: bool, rd: nat, rm: nat)
    requires rd < 32 && rm < 32
    ensures OrOf(MovRegParts(wide, rd, rm), 5) == Encode(MovReg(wide, rd, rm))
  {
    hide Pow2, Fills, Sum, SumOf, OrOf, Encode, MovRegForm;
    Pow2Small();
    MoveFills(MovReg(wide, rd, rm));
    MovRegSums(wide, rd, rm);
    BuildsWord(MovReg(wide, rd, rm), MovRegForm(wide, rd, rm), MOV_REG, 7, MovRegParts(wide, rd, rm), 5);
  }

  method EncodeMovRegister(wide: bool, rd: nat, rm: nat) returns (r: Result<string>)
    ensures r == if rd < 32 && rm < 32 then Ok(InstrText(MovReg(wide, rd, rm))) else Err(OutOfRange)
  {
    hide Pow2, Shl, WordText, Encode, BitOr, Masked, ByteSwap;
    Pow2Small();
    var o := new Arm64Opcode();
    o.SetConstant(Bit(wide), 31, 1);
    :- o.SetField(rm, 16, 5);
    :- o.SetField(rd, 0, 5);
    o.SetConstant(0x15, 25, 32);
    o.SetConstant(31, 5, 5);
    MovRegBuilt(wide, rd, rm);
    var text := o.GetInstruction();
    return Ok(text);
  }

  function MovWideParts(wide: bool, kind: MovKind, rd: nat, imm: nat, hw: nat): Parts {
    Nothing.P(Bit(wide), 31, 1).P(MovOpcode(kind), 23, 8).P(hw, 21, 2).P(imm, 5, 16).P(rd, 0, 5)
  }

  lemma MovWideSums(wide: bool, kind: MovKind, rd: nat, imm: nat, hw: nat)
    ensures SumOf(MovWideParts(wide, kind, rd, imm, hw), 5) == Sum(MovWideForm(wide, kind, rd, imm, hw), 0, 5)
  {
    hide Shl, Bit;
  }

  lemma MovWideBuilt(wide: bool, kind: MovKind, rd: nat, imm: nat, hw: nat)
    requires rd < 32 && imm < 0x1_0000 && hw < 4
    ensures OrOf(MovWideParts(wide, kind, rd, imm, hw), 5) == Encode(MovWide(wide, kind, rd, imm, hw))
  {
    hide Pow2, Fills, Sum, SumOf, OrOf, Encode, MovWideForm;
    assert MovOpcode(kind) < 0x100;
    Pow2Small();
    MoveFills(MovWide(wide, kind, rd, imm, hw));
    MovWideSums(wide, kind, rd, imm, hw);
    BuildsWord(MovWide(wide, kind, rd, imm, hw), MovWideForm(wide, kind, rd, imm, hw), MOV_WIDE, 5,
        MovWideParts(wide, kind, rd, imm, hw), 5);
  }

  method EncodeMovz(rd: nat, imm16: nat, wide: bool, shift: nat := 0) returns (r: Result<string>)
    ensures r == if rd < 32 && imm16 < 0x1_0000 && shift / 16 < 4
        then Ok(InstrText(MovWide(wide, MovZ, rd, imm16, shift / 16)))
        else Err(OutOfRange)
  {
    hide Pow2, Shl, WordText, Encode, BitOr, Masked, ByteSwap;
    Pow2Small();
    var o := new Arm64Opcode();
    o.SetConstant(Bit(wide), 31, 1);
    o.SetConstant(0xA5, 23, 32);
    :- o.SetField(shift / 16, 21, 2);
    :- o.SetField(imm16, 5, 16);
    :- o.SetField(rd, 0, 5);
    MovWideBuilt(wide, MovZ, rd, imm16, shift / 16);
    var text := o.GetInstruction();
    return Ok(text);
  }

  method EncodeMovk(rd: nat, imm16: nat, wide: bool, shift: nat) returns (r: Result<string>)
    ensures r == if rd < 32 && imm16 < 0x1_0000 && shift / 16 < 4
        then Ok(InstrText(MovWide(wide, MovK, rd, imm16, shift / 16)))
        else Err(OutOfRange)
  {
    hide Pow2, Shl, WordText, Encode, BitOr, Masked, ByteSwap;
    Pow2Small();
    var o := new Arm64Opcode();
    o.SetConstant(Bit(wide), 31, 1);
    o.SetConstant(0xE5, 23, 32);
    :- o.SetField(shift / 16, 21, 2);
    :- o.SetField(imm16, 5, 16);
    :- o.SetField(rd, 0, 5);
    MovWideBuilt(wide, MovK, rd, imm16, shift / 16);
    var text := o.GetInstruction();
    return Ok(text);
  }

  method EncodeMovn(rd: nat, imm16: nat, wide: bool, shift: nat) returns (r: Result<string>)
    ensures r == if rd < 32 && imm16 < 0x1_0000 && shift / 16 < 4
        then Ok(InstrText(MovWide(wide, MovN, rd, imm16, shift / 16)))
        else Err(OutOfRange)
  {
    hide Pow2, Shl, WordText, Encode, BitOr, Masked, ByteSwap;
    Pow2Small();
    var o := new Arm64Opcode();
    o.SetConstant(Bit(wide), 31, 1);
    o.SetConstant(0x25, 23, 32);
    :- o.SetField(shift / 16, 21, 2);
    :- o.SetField(imm16, 5, 16);
    :- o.SetField(rd, 0, 5);
    MovWideBuilt(wide, MovN, rd, imm16, shift / 16);
    var text := o.GetInstruction();
    return Ok(text);
  }

  // Loads and stores.

  function PairParts(wide: bool, load: bool, rt: nat, rt2: nat, rn: nat, scaled: int, mode: Mode): Parts {
    Nothing.P(Bit(wide), 31, 1).P(Bit(load), 22, 1).P(PairOpcode(mode), 23, 8).P(scaled % 0x80, 15, 7).P(rt2, 10, 5)
        .P(rn, 5, 5).P(rt, 0, 5)
  }

  lemma PairSums(wide: bool, load: bool, rt: nat, rt2: nat, rn: nat, scaled: int, mode: Mode)
    ensures SumOf(PairParts(wide, load, rt, rt2, rn, scaled, mode), 7) ==
        Sum(PairForm(wide, load, rt, rt2, rn, scaled, mode), 0, 7)
  {
    hide Shl, Bit;
  }

  lemma PairBuilt(wide: bool, load: bool, rt: nat, rt2: nat, rn: nat, scaled: int, mode: Mode)
    requires rt < 32 && rt2 < 32 && rn < 32 && !mode.UnsignedOffset?
    ensures OrOf(PairParts(wide, load, rt, rt2, rn, scaled, mode), 7) ==
        Encode(Pair(wide, load, rt, rt2, rn, scaled, mode))
  {
    hide Pow2, Fills, Sum, SumOf, OrOf, Encode, PairForm;
    assert PairOpcode(mode) < 0x100;
    Pow2Small();
    MemoryFills(Pair(wide, load, rt, rt2, rn, scaled, mode));
    PairSums(wide, load, rt, rt2, rn, scaled, mode);
    BuildsWord(Pair(wide, load, rt, rt2, rn, scaled, mode), PairForm(wide, load, rt, rt2, rn, scaled, mode), PAIR, 7,
        PairParts(wide, load, rt, rt2, rn, scaled, mode), 7);
  }

  /** The conversion of a number to 8 bits. */
  function Int8(x: int): int { (x + 0x80) % 0x100 - 0x80 }

  lemma Int8Masked(x: int)
    ensures Int8(x) < Pow2(7) && Masked(Int8(x), 7) == x % 0x80
  {
    hide Pow2, Int8;
    Pow2Small();
    MaskedMod(Int8(x), 7);
    Int8Rest(x);
  }

  lemma Int8Rest(x: int)
    ensures Int8(x) < 0x80 && Int8(x) % 0x80 == x % 0x80
  {
    var q := (x + 0x80) / 0x100;
    assert Int8(x) == x - 0x100 * q;
    SameRest(x, q);
  }

  lemma SameRest(x: int, q: int)
    ensures (x - 0x100 * q) % 0x80 == x % 0x80
  {
    var d, r := x / 0x80, x % 0x80;
    assert x - 0x100 * q == 0x80 * (d - 2 * q) + r;
    RestOf(d - 2 * q, r);
  }

  lemma RestOf(d: int, r: int)
    requires 0 <= r < 0x80
    ensures (0x80 * d + r) % 0x80 == r
  {}

  method EncodeLdpStp(wide: bool, load: bool, rt: nat, rt2: nat, rn: nat, imm: int, mode: Mode)
      returns (r: Result<string>)
    ensures r == if mode.UnsignedOffset? then Err(Unsupported)
                 else if rt < 32 && rt2 < 32 && rn < 32
                     then Ok(InstrText(Pair(wide, load, rt, rt2, rn, imm / (if wide then 8 else 4), mode)))
                 else Err(OutOfRange)
  {
    hide Pow2, Shl, WordText, Encode, BitOr, Int8, Masked, ByteSwap, MovOpcode;
    Pow2Small();
    MaskedSmall();
    var o := new Arm64Opcode();
    o.SetConstant(Bit(wide), 31, 1);
    var scaled := imm / (if wide then 8 else 4);
    o.SetConstant(Bit(load), 22, 32);
    match mode {
      case PreIndex => o.SetConstant(0x53, 23, 32);
      case PostIndex => o.SetConstant(0x51, 23, 32);
      case SignedOffset => o.SetConstant(0x52, 23, 32);
      case UnsignedOffset => return Err(Unsupported);
    }
    Int8Masked(scaled);
    var _ := o.SetField(Int8(scaled), 15, 7);
    :- o.SetField(rt2, 10, 5);
    :- o.SetField(rn, 5, 5);
    :- o.SetField(rt, 0, 5);
    PairBuilt(wide, load, rt, rt2, rn, scaled, mode);
    var text := o.GetInstruction();
    return Ok(text);
  }

  lemma MaskedSmall()
    ensures forall v: nat, k: nat {:trigger Masked(v, k)} :: v < Pow2(k) ==> Masked(v, k) == v
  {}

  function OffsetParts(wide: bool, load: bool, rt: nat, rn: nat, off: nat): Parts {
    Nothing.P(1, 31, 1).P(Bit(wide), 30, 1).P(7, 27, 3).P(Bit(load), 22, 1).P(1, 24, 3).P(off, 10, 12).P(rt, 0, 5)
        .P(rn, 5, 5)
  }

  lemma OffsetSums(wide: bool, load: bool, rt: nat, rn: nat, off: nat)
    requires off < 4096
    ensures SumOf(OffsetParts(wide, load, rt, rn, off), 8) == Sum(OffsetForm(wide, load, rt, rn, off), 0, 9)
  {
    hide Shl, Bit;
    ShlZero(23);
    assert off < 4096 ==> off % 0x1000 == off;
  }

  lemma OffsetBuilt(wide: bool, load: bool, rt: nat, rn: nat, off: nat)
    requires rt < 32 && rn < 32 && off < 4096
    ensures OrOf(OffsetParts(wide, load, rt, rn, off), 8) == Encode(LdStImm(wide, load, rt, rn, off, UnsignedOffset))
  {
    hide Pow2, Fills, Sum, SumOf, OrOf, Encode, OffsetForm;
    Pow2Small();
    MemoryFills(LdStImm(wide, load, rt, rn, off, UnsignedOffset));
    OffsetSums(wide, load, rt, rn, off);
    BuildsWord(LdStImm(wide, load, rt, rn, off, UnsignedOffset), OffsetForm(wide, load, rt, rn, off), LD_ST_IMM, 9,
        OffsetParts(wide, load, rt, rn, off), 8);
  }

  function IndexParts(wide: bool, load: bool, rt: nat, rn: nat, off: int, pre: bool): Parts {
    Nothing.P(1, 31, 1).P(Bit(wide), 30, 1).P(7, 27, 3).P(Bit(load), 22, 1).P(0, 24, 1).P(off % 0x200, 12, 9)
        .P(if pre then 3 else 1, 10, 2)
        .P(rt, 0, 5).P(rn, 5, 5)
  }

  lemma IndexSums(wide: bool, load: bool, rt: nat, rn: nat, off: int, pre: bool)
    ensures SumOf(IndexParts(wide, load, rt, rn, off, pre), 9) == Sum(IndexForm(wide, load, rt, rn, off, pre), 0, 10)
  {
    hide Shl, Bit;
    ShlZero(21);
    ShlZero(23);
    ShlZero(24);
  }

  lemma IndexBuilt(wide: bool, load: bool, rt: nat, rn: nat, off: int, pre: bool)
    requires rt < 32 && rn < 32
    ensures OrOf(IndexParts(wide, load, rt, rn, off, pre), 9) ==
        Encode(LdStImm(wide, load, rt, rn, off, if pre then PreIndex else PostIndex))
  {
    hide Pow2, Fills, Sum, SumOf, OrOf, Encode, IndexForm;
    Pow2Small();
    MemoryFills(LdStImm(wide, load, rt, rn, off, if pre then PreIndex else PostIndex));
    IndexSums(wide, load, rt, rn, off, pre);
    BuildsWord(LdStImm(wide, load, rt, rn, off, if pre then PreIndex else PostIndex),
        IndexForm(wide, load, rt, rn, off, pre), LD_ST_INDEX,
        10, IndexParts(wide, load, rt, rn, off, pre), 9);
  }

  lemma MaskedImm(off: int)
    requires off < 0x200
    ensures Masked(off, 9) == off % 0x200
  {
    Pow2Small();
    MaskedMod(off, 9);
  }

  /** The conversion of a number to 16 bits without sign. */
  function UInt16(x: int): nat { x % 0x1_0000 }

  method EncodeLoadStoreImm(wide: bool, load: bool, rt: nat, rn: nat, imm: int, mode: Mode := UnsignedOffset)
      returns (r: Result<string>)
    ensures r == if mode.SignedOffset? then Err(Unsupported)
                 else if (if mode.UnsignedOffset? then UInt16(imm / (if wide then 8 else 4)) < 4096 else imm < 0x200)
                     && rt < 32 && rn < 32
                   then
                     Ok(InstrText(LdStImm(wide, load, rt, rn,
                                          if mode.UnsignedOffset? then UInt16(imm / (if wide then 8 else 4)) else imm,
                                          mode)))
                 else Err(OutOfRange)
  {
    match mode {
      case UnsignedOffset => r := EncodeOffset(wide, load, rt, rn, UInt16(imm / (if wide then 8 else 4)));
      case PostIndex => r := EncodeIndex(wide, load, rt, rn, imm, false);
      case PreIndex => r := EncodeIndex(wide, load, rt, rn, imm, true);
      case SignedOffset => r := Err(Unsupported);
    }
  }

  method EncodeOffset(wide: bool, load: bool, rt: nat, rn: nat, off: nat) returns (r: Result<string>)
    ensures r == if off < 4096 && rt < 32 && rn < 32
        then Ok(InstrText(LdStImm(wide, load, rt, rn, off, UnsignedOffset)))
        else Err(OutOfRange)
  {
    hide Pow2, Shl, WordText, Encode, BitOr, Masked, ByteSwap;
    Pow2Small();
    var o := new Arm64Opcode();
    o.SetConstant(1, 31, 32);
    o.SetConstant(Bit(wide), 30, 32);
    o.SetConstant(7, 27, 32);
    o.SetConstant(Bit(load), 22, 32);
    o.SetConstant(1, 24, 32);
    :- o.SetField(off, 10, 12);
    :- o.SetField(rt, 0, 5);
    :- o.SetField(rn, 5, 5);
    OffsetBuilt(wide, load, rt, rn, off);
    var text := o.GetInstruction();
    return Ok(text);
  }

  method EncodeIndex(wide: bool, load: bool, rt: nat, rn: nat, imm: int, pre: bool) returns (r: Result<string>)
    ensures r == if imm < 0x200 && rt < 32 && rn < 32
        then Ok(InstrText(LdStImm(wide, load, rt, rn, imm, if pre then PreIndex else PostIndex))) else Err(OutOfRange)
  {
    hide Pow2, Shl, WordText, Encode, BitOr, Masked, ByteSwap;
    Pow2Small();
    var o := new Arm64Opcode();
    o.SetConstant(1, 31, 32);
    o.SetConstant(Bit(wide), 30, 32);
    o.SetConstant(7, 27, 32);
    o.SetConstant(Bit(load), 22, 32);
    o.SetConstant(0, 24, 32);
    :- o.SetField(imm, 12, 9);
    MaskedImm(imm);
    o.SetConstant(if pre then 3 else 1, 10, 32);
    :- o.SetField(rt, 0, 5);
    :- o.SetField(rn, 5, 5);
    IndexBuilt(wide, load, rt, rn, imm, pre);
    var text := o.GetInstruction();
    return Ok(text);
  }

  function RegisterParts(wide: bool, load: bool, rt: nat, rn: nat, rm: nat): Parts {
    Nothing.P(1, 31, 1).P(Bit(wide), 30, 1).P(7, 27, 3).P(Bit(load), 22, 1).P(1, 21, 1).P(3, 13, 2).P(1, 11, 1)
        .P(rm, 16, 5).P(rn, 5, 5).P(rt, 0, 5)
  }

  lemma ShlTwice(x: nat, k: nat)
    ensures Shl(2 * x, k) == Shl(x, k + 1)
  {
    ShlSum(x, x, k);
  }

  lemma RegisterSums(wide: bool, load: bool, rt: nat, rn: nat, rm: nat)
    ensures SumOf(RegisterParts(wide, load, rt, rn, rm), 10) == Sum(RegisterForm(wide, load, rt, rn, rm), 0, 11)
  {
    hide Shl, Bit;
    ShlZero(23);
    ShlTwice(3, 12);
    ShlTwice(1, 10);
  }

  lemma RegisterDisjoint(wide: bool, load: bool, rt: nat, rn: nat, rm: nat)
    requires rt < 32 && rn < 32 && rm < 32
    ensures Disjoint(RegisterParts(wide, load, rt, rn, rm), 10)
  {
    hide Pow2;
    Pow2Small();
    var a := Nothing.P(1, 31, 1).P(Bit(wide), 30, 1).P(7, 27, 3).P(Bit(load), 22, 1).P(1, 21, 1);
    var b := a.P(3, 13, 2).P(1, 11, 1);
    assert Disjoint(a, 5);
    assert Disjoint(b, 7);
    assert Disjoint(b.P(rm, 16, 5), 8);
    assert Disjoint(b.P(rm, 16, 5).P(rn, 5, 5), 9);
  }

  lemma RegisterBuilt(wide: bool, load: bool, rt: nat, rn: nat, rm: nat)
    requires rt < 32 && rn < 32 && rm < 32
    ensures OrOf(RegisterParts(wide, load, rt, rn, rm), 10) == Encode(LdStReg(wide, load, rt, rn, rm))
  {
    hide Fills, Sum, SumOf, OrOf, Encode, RegisterForm, Disjoint, RegisterParts;
    RegisterDisjoint(wide, load, rt, rn, rm);
    MemoryFills(LdStReg(wide, load, rt, rn, rm));
    RegisterSums(wide, load, rt, rn, rm);
    BuildsWord(LdStReg(wide, load, rt, rn, rm), RegisterForm(wide, load, rt, rn, rm), LD_ST_REG, 11,
        RegisterParts(wide, load, rt, rn, rm), 10);
  }

  method EncodeLoadStoreReg(wide: bool, load: bool, rt: nat, rn: nat, rm: nat) returns (r: Result<string>)
    ensures r == if rt < 32 && rn < 32 && rm < 32
        then Ok(InstrText(LdStReg(wide, load, rt, rn, rm)))
        else Err(OutOfRange)
  {
    hide Pow2, Shl, WordText, Encode, BitOr, Masked, ByteSwap;
    Pow2Small();
    var o := new Arm64Opcode();
    o.SetConstant(1, 31, 32);
    o.SetConstant(Bit(wide), 30, 32);
    o.SetConstant(7, 27, 32);
    o.SetConstant(Bit(load), 22, 32);
    o.SetConstant(1, 21, 32);
    o.SetConstant(3, 13, 32);
    o.SetConstant(1, 11, 32);
    :- o.SetField(rm, 16, 5);
    :- o.SetField(rn, 5, 5);
    :- o.SetField(rt, 0, 5);
    RegisterBuilt(wide, load, rt, rn, rm);
    var text := o.GetInstruction();
    return Ok(text);
  }

  // Branches.

  function JumpParts(jump: JumpKind, rn: nat): Parts {
    Nothing.P(if jump.Ret? then 0x359 else 0x358, 22, 10).P(0x7C0, 10, 11).P(Bit(jump.Blr?), 21, 1).P(rn, 5, 5)
  }

  lemma JumpSums(jump: JumpKind, rn: nat)
    ensures SumOf(JumpParts(jump, rn), 4) == Sum(JumpForm(jump, rn), 0, 5)
  {
    hide Shl, Bit;
    ShlZero(0);
  }

  lemma JumpBuilt(jump: JumpKind, rn: nat)
    requires rn < 32
    ensures OrOf(JumpParts(jump, rn), 4) == Encode(BranchReg(jump, rn))
  {
    hide Pow2, Fills, Sum, SumOf, OrOf, Encode, JumpForm;
    Pow2Small();
    BranchFills(BranchReg(jump, rn));
    JumpSums(jump, rn);
    BuildsWord(BranchReg(jump, rn), JumpForm(jump, rn), BRANCH_REG, 5, JumpParts(jump, rn), 4);
  }

  lemma JumpConstant(w: nat, ret: bool)
    ensures BitOr(w, Shl(if ret then 0x35_97C0 else 0x35_87C0, 10)) ==
        BitOr(BitOr(w, Shl(if ret then 0x359 else 0x358, 22)), Shl(0x7C0, 10))
  {
    hide Shl, BitOr;
    var c, u := if ret then 0x35_97C0 else 0x35_87C0, if ret then 0x359 else 0x358;
    ShlTimes(c, 10);
    ShlTimes(u, 22);
    ShlTimes(0x7C0, 10);
    Powers();
    Pow2Small();
    TwoPieces(w, c, 10, u, 22, 0x7C0, 10, 11);
  }

  method EncodeReturn(rn: nat := 30) returns (r: Result<string>)
    ensures r == if rn < 32 then Ok(InstrText(BranchReg(Ret, rn))) else Err(OutOfRange)
  {
    hide Shl, WordText, Encode, BitOr;
    Pow2Small();
    var o := new Arm64Opcode();
    JumpConstant(o.inst, true);
    o.SetConstant(0x35_97C0, 10, 32);
    ghost var w := o.inst;
    NoLink(w);
    :- o.SetField(rn, 5, 5);
    JumpBuilt(Ret, rn);
    var text := o.GetInstruction();
    return Ok(text);
  }

  /** Writing a zero changes nothing. */
  lemma NoLink(w: nat)
    ensures BitOr(w, Shl(0, 21)) == w
  {
    ShlZero(21);
    OrZero(w);
  }

  method EncodeBranchRegister(rn: nat, hasReturn: bool) returns (r: Result<string>)
    ensures r == if rn < 32 then Ok(InstrText(BranchReg(if hasReturn then Blr else Br, rn))) else Err(OutOfRange)
  {
    hide Shl, WordText, Encode, BitOr;
    Pow2Small();
    var o := new Arm64Opcode();
    JumpConstant(o.inst, false);
    o.SetConstant(0x35_87C0, 10, 32);
    o.SetConstant(Bit(hasReturn), 21, 32);
    :- o.SetField(rn, 5, 5);
    JumpBuilt(if hasReturn then Blr else Br, rn);
    var text := o.GetInstruction();
    return Ok(text);
  }

  function BranchParts(link: bool, dist: int): Parts {
    Nothing.P(5, 26, 5).P(Bit(link), 31, 1).P(dist % 0x400_0000, 0, 26)
  }

  lemma BranchSums(link: bool, dist: int)
    ensures SumOf(BranchParts(link, dist), 3) == Sum(BranchForm(link, dist), 0, 3)
  {
    hide Shl, Bit;
  }

  lemma BranchBuilt(link: bool, dist: int)
    ensures OrOf(BranchParts(link, dist), 3) == Encode(Branch(link, dist))
  {
    hide Pow2, Fills, Sum, SumOf, OrOf, Encode, BranchForm;
    Pow2Small();
    BranchFills(Branch(link, dist));
    BranchSums(link, dist);
    BuildsWord(Branch(link, dist), BranchForm(link, dist), BRANCH, 3, BranchParts(link, dist), 3);
  }

  lemma MaskedDist(dist: int)
    ensures dist < 0x400_0000 ==> Masked(dist, 26) == dist % 0x400_0000
    ensures dist < 0x8_0000 ==> Masked(dist, 19) == dist % 0x8_0000
  {
    Pow2Small();
    MaskedMod(dist, 26);
    MaskedMod(dist, 19);
  }

  method EncodeBranch(imm: int, withLink: bool := false) returns (r: Result<string>)
    ensures r == if imm < 0x400_0000 then Ok(InstrText(Branch(withLink, imm))) else Err(OutOfRange)
  {
    hide Pow2, Shl, WordText, Encode, BitOr, Masked, ByteSwap;
    Pow2Small();
    var o := new Arm64Opcode();
    o.SetConstant(5, 26, 32);
    o.SetConstant(Bit(withLink), 31, 32);
    :- o.SetField(imm, 0, 26);
    MaskedDist(imm);
    BranchBuilt(withLink, imm);
    var text := o.GetInstruction();
    return Ok(text);
  }

  function CondParts(cond: nat, dist: int): Parts {
    Nothing.P(0x54, 24, 8).P(dist % 0x8_0000, 5, 19).P(cond, 0, 4)
  }

  lemma CondSums(cond: nat, dist: int)
    ensures SumOf(CondParts(cond, dist), 3) == Sum(CondForm(cond, dist), 0, 4)
  {
    hide Shl, Bit;
    ShlZero(4);
  }

  lemma CondBuilt(cond: nat, dist: int)
    requires cond < 16
    ensures OrOf(CondParts(cond, dist), 3) == Encode(BranchCond(cond, dist))
  {
    hide Pow2, Fills, Sum, SumOf, OrOf, Encode, CondForm;
    Pow2Small();
    BranchFills(BranchCond(cond, dist));
    CondSums(cond, dist);
    BuildsWord(BranchCond(cond, dist), CondForm(cond, dist), BRANCH_COND, 4, CondParts(cond, dist), 3);
  }

  method EncodeBranchCondition(imm19: int, cond: nat) returns (r: Result<string>)
    ensures r == if imm19 < 0x8_0000 && cond < 16 then Ok(InstrText(BranchCond(cond, imm19))) else Err(OutOfRange)
  {
    hide Pow2, Shl, WordText, Encode, BitOr, Masked, ByteSwap;
    Pow2Small();
    var o := new Arm64Opcode();
    o.SetConstant(0x54, 24, 32);
    :- o.SetField(imm19, 5, 19);
    MaskedDist(imm19);
    :- o.SetField(cond, 0, 4);
    CondBuilt(cond, imm19);
    var text := o.GetInstruction();
    return Ok(text);
  }

  function AdrParts(rd: nat, off: int): Parts {
    Nothing.P(1, 28, 1).P(off % 4, 29, 2).P(off / 4 % 0x8_0000, 5, 19).P(rd, 0, 5)
  }

  lemma AdrSums(rd: nat, off: int)
    ensures SumOf(AdrParts(rd, off), 4) == Sum(AdrForm(rd, off), 0, 6)
  {
    hide Shl, Bit;
    ShlZero(24);
    ShlZero(31);
  }

  lemma AdrBuilt(rd: nat, off: int)
    requires rd < 32
    ensures OrOf(AdrParts(rd, off), 4) == Encode(Adr(rd, off))
  {
    hide Pow2, Fills, Sum, SumOf, OrOf, Encode, AdrForm;
    Pow2Small();
    MoveFills(Adr(rd, off));
    AdrSums(rd, off);
    BuildsWord(Adr(rd, off), AdrForm(rd, off), ADR, 6, AdrParts(rd, off), 4);
  }

  method EncodeAdr(rd: nat, imm: int) returns (r: Result<string>)
    ensures r == if rd < 32 then Ok(InstrText(Adr(rd, imm))) else Err(OutOfRange)
  {
    hide Pow2, Shl, WordText, Encode, BitOr, Masked, ByteSwap;
    Pow2Small();
    var o := new Arm64Opcode();
    o.SetConstant(1, 28, 32);
    o.SetConstant(imm % 4, 29, 2);
    o.SetConstant(imm / 4 % 0x8_0000, 5, 19);
    :- o.SetField(rd, 0, 5);
    AdrBuilt(rd, imm);
    var text := o.GetInstruction();
    return Ok(text);
  }
}
