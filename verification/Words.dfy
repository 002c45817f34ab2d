/**
 The instruction words in plain arithmetic, each operand at the power of two at which section C6.2 of Arm DDI 0487 has
 it; and the words that the documentation prints.
 */
module Words {
  import opened Bits
  import opened Isa

  /** `x` times 2 to the `k`. */
  function Times(x: nat, k: nat): nat {
    if k <= 1 then 2 * x
    else if k == 2 then 0x4 * x
    else if k == 3 then 0x8 * x
    else if k == 4 then 0x10 * x
    else if k == 5 then 0x20 * x
    else if k == 6 then 0x40 * x
    else if k == 7 then 0x80 * x
    else if k == 8 then 0x100 * x
    else if k == 9 then 0x200 * x
    else if k == 10 then 0x400 * x
    else if k == 11 then 0x800 * x
    else if k == 12 then 0x1000 * x
    else if k == 13 then 0x2000 * x
    else if k == 14 then 0x4000 * x
    else if k == 15 then 0x8000 * x
    else if k == 16 then 0x10000 * x
    else if k == 17 then 0x20000 * x
    else if k == 18 then 0x40000 * x
    else if k == 19 then 0x80000 * x
    else if k == 20 then 0x100000 * x
    else if k == 21 then 0x200000 * x
    else if k == 22 then 0x400000 * x
    else if k == 23 then 0x800000 * x
    else if k == 24 then 0x1000000 * x
    else if k == 25 then 0x2000000 * x
    else if k == 26 then 0x4000000 * x
    else 0x1_0000_0000 * x
  }

  lemma ShlOne(x: nat, k: nat)
    ensures Shl(x, k + 1) == 2 * Shl(x, k) && Shl(x, 0) == x
  {}

  lemma {:induction false} TimesShl(x: nat, k: nat)
    requires 1 <= k <= 26
    ensures Shl(x, k) == Times(x, k)
    decreases k
  {
    hide Shl;
    ShlOne(x, k - 1);
    if k > 1 {
      TimesShl(x, k - 1);
    }
  }

  /** A word of one field. */
  lemma Top(v: nat, k: nat) returns (f: Fields, y: nat)
    ensures f == End.F(v, k) && Pack(f) == y == v
  {
    hide Shl;
    f, y := End.F(v, k), v;
    ShlZero(k);
  }

  /** A word with one more field below. */
  lemma Below(f: Fields, y: nat, v: nat, k: nat) returns (g: Fields, z: nat)
    requires Pack(f) == y && 1 <= k <= 26
    ensures g == f.F(v, k) && Pack(g) == z == v + Times(y, k)
  {
    hide Shl, Times;
    g, z := f.F(v, k), v + Times(y, k);
    TimesShl(y, k);
  }

  lemma AddSubRegWord(wide: bool, sub: bool, setFlags: bool, rd: nat, rn: nat, rm: nat, shift: nat, amount: nat)
    ensures
      Pack(AddSubRegForm(wide, sub, setFlags, rd, rn, rm, shift, amount)) ==
        0xB00_0000 + 0x8000_0000 * Bit(wide) + 0x4000_0000 * Bit(sub) + 0x2000_0000 * Bit(setFlags)
        + 0x40_0000 * shift + 0x1_0000 * rm + 0x400 * amount + 0x20 * rn + rd
  {
    hide Pack;
    var f, y := Top(Bit(wide), 1);
    f, y := Below(f, y, Bit(sub), 1);
    f, y := Below(f, y, Bit(setFlags), 1);
    f, y := Below(f, y, 0xB, 5);
    f, y := Below(f, y, shift, 2);
    f, y := Below(f, y, 0, 1);
    f, y := Below(f, y, rm, 5);
    f, y := Below(f, y, amount, 6);
    f, y := Below(f, y, rn, 5);
    f, y := Below(f, y, rd, 5);
  }

  lemma AddSubImmWord(wide: bool, sub: bool, setFlags: bool, rd: nat, rn: nat, imm: nat, shifted: bool)
    ensures
      Pack(AddSubImmForm(wide, sub, setFlags, rd, rn, imm, shifted)) ==
        0x1100_0000 + 0x8000_0000 * Bit(wide) + 0x4000_0000 * Bit(sub) + 0x2000_0000 * Bit(setFlags)
        + 0x40_0000 * Bit(shifted) + 0x400 * imm + 0x20 * rn + rd
  {
    hide Pack;
    var f, y := Top(Bit(wide), 1);
    f, y := Below(f, y, Bit(sub), 1);
    f, y := Below(f, y, Bit(setFlags), 1);
    f, y := Below(f, y, 0x11, 5);
    f, y := Below(f, y, 0, 1);
    f, y := Below(f, y, Bit(shifted), 1);
    f, y := Below(f, y, imm, 12);
    f, y := Below(f, y, rn, 5);
    f, y := Below(f, y, rd, 5);
  }

  lemma MulWord(wide: bool, rd: nat, rn: nat, rm: nat)
    ensures
      Pack(MulForm(wide, rd, rn, rm)) ==
        0x1B00_7C00 + 0x8000_0000 * Bit(wide) + 0x1_0000 * rm + 0x20 * rn + rd
  {
    hide Pack;
    var f, y := Top(Bit(wide), 1);
    f, y := Below(f, y, 0xD8, 10);
    f, y := Below(f, y, rm, 5);
    f, y := Below(f, y, 0x1F, 6);
    f, y := Below(f, y, rn, 5);
    f, y := Below(f, y, rd, 5);
  }

  lemma DivWord(wide: bool, signed: bool, rd: nat, rn: nat, rm: nat)
    ensures
      Pack(DivForm(wide, signed, rd, rn, rm)) ==
        0x1AC0_0800 + 0x8000_0000 * Bit(wide) + 0x1_0000 * rm + 0x400 * Bit(signed) + 0x20 * rn + rd
  {
    hide Pack;
    var f, y := Top(Bit(wide), 1);
    f, y := Below(f, y, 0x6B, 9);
    f, y := Below(f, y, 0, 1);
    f, y := Below(f, y, rm, 5);
    f, y := Below(f, y, 1, 5);
    f, y := Below(f, y, Bit(signed), 1);
    f, y := Below(f, y, rn, 5);
    f, y := Below(f, y, rd, 5);
  }

  lemma MovRegWord(wide: bool, rd: nat, rm: nat)
    ensures
      Pack(MovRegForm(wide, rd, rm)) ==
        0x2A00_03E0 + 0x8000_0000 * Bit(wide) + 0x1_0000 * rm + rd
  {
    hide Pack;
    var f, y := Top(Bit(wide), 1);
    f, y := Below(f, y, 0x15, 6);
    f, y := Below(f, y, 0, 4);
    f, y := Below(f, y, rm, 5);
    f, y := Below(f, y, 0, 6);
    f, y := Below(f, y, 31, 5);
    f, y := Below(f, y, rd, 5);
  }

  lemma MovWideWord(wide: bool, kind: MovKind, rd: nat, imm: nat, hw: nat)
    ensures
      Pack(MovWideForm(wide, kind, rd, imm, hw)) ==
        (match kind case MovN => 0x1280_0000 case MovZ => 0x5280_0000 case MovK => 0x7280_0000)
        + 0x8000_0000 * Bit(wide) + 0x20_0000 * hw + 0x20 * imm + rd
  {
    hide Pack;
    var f, y := Top(Bit(wide), 1);
    f, y := Below(f, y, MovOpcode(kind), 8);
    f, y := Below(f, y, hw, 2);
    f, y := Below(f, y, imm, 16);
    f, y := Below(f, y, rd, 5);
  }

  lemma PairWord(wide: bool, load: bool, rt: nat, rt2: nat, rn: nat, scaled: int, mode: Mode)
    ensures
      Pack(PairForm(wide, load, rt, rt2, rn, scaled, mode)) ==
        (match mode case PostIndex => 0x2880_0000 case PreIndex => 0x2980_0000 case _ => 0x2900_0000)
        + 0x8000_0000 * Bit(wide) + 0x40_0000 * Bit(load) + 0x8000 * (scaled % 0x80) + 0x400 * rt2 + 0x20 * rn + rt
  {
    hide Pack;
    var f, y := Top(Bit(wide), 1);
    f, y := Below(f, y, PairOpcode(mode), 8);
    f, y := Below(f, y, Bit(load), 1);
    f, y := Below(f, y, scaled % 0x80, 7);
    f, y := Below(f, y, rt2, 5);
    f, y := Below(f, y, rn, 5);
    f, y := Below(f, y, rt, 5);
  }

  lemma OffsetWord(wide: bool, load: bool, rt: nat, rn: nat, off: int)
    ensures
      Pack(OffsetForm(wide, load, rt, rn, off)) ==
        0xB900_0000 + 0x4000_0000 * Bit(wide) + 0x40_0000 * Bit(load) + 0x400 * (off % 0x1000) + 0x20 * rn + rt
  {
    hide Pack;
    var f, y := Top(1, 1);
    f, y := Below(f, y, Bit(wide), 1);
    f, y := Below(f, y, 7, 3);
    f, y := Below(f, y, 1, 3);
    f, y := Below(f, y, 0, 1);
    f, y := Below(f, y, Bit(load), 1);
    f, y := Below(f, y, off % 0x1000, 12);
    f, y := Below(f, y, rn, 5);
    f, y := Below(f, y, rt, 5);
  }

  lemma IndexWord(wide: bool, load: bool, rt: nat, rn: nat, off: int, pre: bool)
    ensures
      Pack(IndexForm(wide, load, rt, rn, off, pre)) ==
        0xB800_0400 + 0x4000_0000 * Bit(wide) + 0x40_0000 * Bit(load) + 0x1000 * (off % 0x200)
        + 0x800 * Bit(pre) + 0x20 * rn + rt
  {
    hide Pack;
    var f, y := Top(1, 1);
    f, y := Below(f, y, Bit(wide), 1);
    f, y := Below(f, y, 7, 3);
    f, y := Below(f, y, 0, 4);
    f, y := Below(f, y, Bit(load), 1);
    f, y := Below(f, y, 0, 1);
    f, y := Below(f, y, off % 0x200, 9);
    f, y := Below(f, y, if pre then 3 else 1, 2);
    f, y := Below(f, y, rn, 5);
    f, y := Below(f, y, rt, 5);
  }

  lemma RegisterWord(wide: bool, load: bool, rt: nat, rn: nat, rm: nat)
    ensures
      Pack(RegisterForm(wide, load, rt, rn, rm)) ==
        0xB820_6800 + 0x4000_0000 * Bit(wide) + 0x40_0000 * Bit(load) + 0x1_0000 * rm + 0x20 * rn + rt
  {
    hide Pack;
    var f, y := Top(1, 1);
    f, y := Below(f, y, Bit(wide), 1);
    f, y := Below(f, y, 7, 3);
    f, y := Below(f, y, 0, 4);
    f, y := Below(f, y, Bit(load), 1);
    f, y := Below(f, y, 1, 1);
    f, y := Below(f, y, rm, 5);
    f, y := Below(f, y, 6, 4);
    f, y := Below(f, y, 2, 2);
    f, y := Below(f, y, rn, 5);
    f, y := Below(f, y, rt, 5);
  }

  lemma CselWord(wide: bool, rd: nat, rn: nat, rm: nat, cond: nat)
    ensures
      Pack(CselForm(wide, rd, rn, rm, cond)) ==
        0x1A80_0000 + 0x8000_0000 * Bit(wide) + 0x1_0000 * rm + 0x1000 * cond + 0x20 * rn + rd
  {
    hide Pack;
    var f, y := Top(Bit(wide), 1);
    f, y := Below(f, y, 0x35, 8);
    f, y := Below(f, y, 0, 2);
    f, y := Below(f, y, rm, 5);
    f, y := Below(f, y, cond, 4);
    f, y := Below(f, y, 0, 2);
    f, y := Below(f, y, rn, 5);
    f, y := Below(f, y, rd, 5);
  }

  lemma BranchWord(link: bool, dist: int)
    ensures
      Pack(BranchForm(link, dist)) ==
        0x1400_0000 + 0x8000_0000 * Bit(link) + dist % 0x400_0000
  {
    hide Pack;
    var f, y := Top(Bit(link), 1);
    f, y := Below(f, y, 5, 5);
    f, y := Below(f, y, dist % 0x400_0000, 26);
  }

  lemma CondWord(cond: nat, dist: int)
    ensures
      Pack(CondForm(cond, dist)) ==
        0x5400_0000 + 0x20 * (dist % 0x8_0000) + cond
  {
    hide Pack;
    var f, y := Top(0x54, 8);
    f, y := Below(f, y, dist % 0x8_0000, 19);
    f, y := Below(f, y, 0, 1);
    f, y := Below(f, y, cond, 4);
  }

  lemma JumpWord(jump: JumpKind, rn: nat)
    ensures
      Pack(JumpForm(jump, rn)) ==
        (match jump case Br => 0xD61F_0000 case Blr => 0xD63F_0000 case Ret => 0xD65F_0000) + 0x20 * rn
  {
    hide Pack;
    var f, y := Top(if jump.Ret? then 0x359 else 0x358, 10);
    f, y := Below(f, y, Bit(jump.Blr?), 1);
    f, y := Below(f, y, 0x7C0, 11);
    f, y := Below(f, y, rn, 5);
    f, y := Below(f, y, 0, 5);
  }

  lemma AdrWord(rd: nat, off: int)
    ensures
      Pack(AdrForm(rd, off)) ==
        0x1000_0000 + 0x2000_0000 * (off % 4) + 0x20 * (off / 4 % 0x8_0000) + rd
  {
    hide Pack;
    var f, y := Top(0, 1);
    f, y := Below(f, y, off % 4, 2);
    f, y := Below(f, y, 1, 1);
    f, y := Below(f, y, 0, 4);
    f, y := Below(f, y, off / 4 % 0x8_0000, 19);
    f, y := Below(f, y, rd, 5);
  }

  // The words of the documentation's example.

  /** `sub sp, sp, 48` and `add sp, sp, 48`. */
  lemma FrameWords()
    ensures Encode(AddSubImm(true, true, false, 31, 31, 48, false)) == 0xD100_C3FF
    ensures Encode(AddSubImm(true, false, false, 31, 31, 48, false)) == 0x9100_C3FF
  {
    hide Pack;
    AddSubImmWord(true, true, false, 31, 31, 48, false);
    AddSubImmWord(true, false, false, 31, 31, 48, false);
  }

  /** The two words of `mov 1, w11`. */
  lemma ConstantWords()
    ensures Encode(MovWide(false, MovK, 11, 0, 1)) == 0x72A0_000B
    ensures Encode(MovWide(false, MovZ, 11, 1, 0)) == 0x5280_002B
  {
    hide Pack;
    MovWideWord(false, MovK, 11, 0, 1);
    MovWideWord(false, MovZ, 11, 1, 0);
  }

  /** `str wzr, [sp, #12]`, `str w11, [sp, #40]`, `ldr w11, [sp, #40]`, `str w11, [sp, #12]` and `ldr w0, [sp, #40]`. */
  lemma SlotWords()
    ensures Encode(LdStImm(false, false, 31, 31, 3, UnsignedOffset)) == 0xB900_0FFF
    ensures Encode(LdStImm(false, false, 11, 31, 10, UnsignedOffset)) == 0xB900_2BEB
    ensures Encode(LdStImm(false, true, 11, 31, 10, UnsignedOffset)) == 0xB940_2BEB
    ensures Encode(LdStImm(false, false, 11, 31, 3, UnsignedOffset)) == 0xB900_0FEB
    ensures Encode(LdStImm(false, true, 0, 31, 10, UnsignedOffset)) == 0xB940_2BE0
  {
    hide Pack;
    OffsetWord(false, false, 31, 31, 3);
    OffsetWord(false, false, 11, 31, 10);
    OffsetWord(false, true, 11, 31, 10);
    OffsetWord(false, false, 11, 31, 3);
    OffsetWord(false, true, 0, 31, 10);
  }

  /** `ret`. */
  lemma ReturnWord()
    ensures Encode(BranchReg(Ret, 30)) == 0xD65F_03C0
  {
    hide Pack;
    JumpWord(Ret, 30);
  }
}
