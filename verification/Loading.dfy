/** The compiled text as the machine sees it: loaded as bytes and decoded, it is the code that was emitted. */
module Loading {
  import opened Bits
  import opened Numbers
  import opened Isa
  import opened Machine
  import opened Codegen
  import opened Layout
  import opened Stub
  import opened Function
  import opened Image
  import opened HexText
  import opened Patching
  import W = Wasm

  /** All instructions have an encoding. */
  ghost predicate Sound(code: seq<Instr>) { forall k :: 0 <= k < |code| ==> Encodable(code[k]) }

  lemma SoundAppend(a: seq<Instr>, b: seq<Instr>)
    requires Sound(a) && Sound(b)
    ensures Sound(a + b)
  {
    hide Encodable;
  }

  // The machine's view of loaded bytes.

  /** The program that bytes at address `base` are. */
  function ProgramOf(bs: seq<HexText.Byte>, base: int): Program {
    Program(base, seq(|Words(bs)|, k requires 0 <= k < |Words(bs)| => Decode(Words(bs)[k])))
  }

  // An instruction's word has 32 bits.

  lemma {:induction false} SameOffset(f: Fields, shape: Fields, n: nat, j: nat)
    requires Fills(f, shape, n) && j <= n
    ensures Offset(f, j) == Offset(shape, j)
    decreases j
  {
    if j > 0 {
      SameOffset(f.rest, shape.rest, n - 1, j - 1);
    }
  }

  lemma {:induction false} ShlLess(x: nat, m: nat, k: nat)
    requires x < Pow2(m)
    ensures Shl(x, k) + Pow2(k) <= Pow2(m + k)
    decreases k
  {
    if k > 0 {
      ShlLess(x, m, k - 1);
    }
  }

  /** A word is below the power of two of its fields' lengths. */
  lemma {:induction false} PackBound(f: Fields, shape: Fields, n: nat)
    requires Fills(f, shape, n)
    ensures Pack(f) < Pow2(Offset(f, n))
    decreases n
  {
    if n > 0 {
      PackBound(f.rest, shape.rest, n - 1);
      ShlLess(Pack(f.rest), Offset(f.rest, n - 1), f.length);
    }
  }

  lemma DataLengths()
    ensures Offset(ADD_SUB_REG, 10) == 32 && Offset(ADD_SUB_IMM, 9) == 32 && Offset(MUL, 6) == 32
        && Offset(DIV, 8) == 32
  {}

  lemma MoveLengths()
    ensures Offset(MOV_REG, 7) == 32 && Offset(MOV_WIDE, 5) == 32 && Offset(ADR, 6) == 32 && Offset(CSEL, 8) == 32
  {}

  lemma MemoryLengths()
    ensures Offset(PAIR, 7) == 32 && Offset(LD_ST_IMM, 9) == 32 && Offset(LD_ST_INDEX, 10) == 32
        && Offset(LD_ST_REG, 11) == 32
  {}

  lemma BranchLengths()
    ensures Offset(BRANCH, 3) == 32 && Offset(BRANCH_COND, 4) == 32 && Offset(BRANCH_REG, 5) == 32
        && Offset(End.F(0, 32), 1) == 32
  {}

  /** The diagram of an instruction's class, and the number of its fields. */
  function Shape(i: Instr): (Fields, nat) {
    match i
    case Nop => (End.F(0, 32), 1)
    case AddSubReg(_, _, _, _, _, _, _, _) => (ADD_SUB_REG, 10)
    case AddSubImm(_, _, _, _, _, _, _) => (ADD_SUB_IMM, 9)
    case Mul(_, _, _, _) => (MUL, 6)
    case Div(_, _, _, _, _) => (DIV, 8)
    case MovReg(_, _, _) => (MOV_REG, 7)
    case MovWide(_, _, _, _, _) => (MOV_WIDE, 5)
    case Pair(_, _, _, _, _, _, _) => (PAIR, 7)
    case LdStImm(_, _, _, _, _, mode) => if mode.UnsignedOffset? then (LD_ST_IMM, 9) else (LD_ST_INDEX, 10)
    case LdStReg(_, _, _, _, _) => (LD_ST_REG, 11)
    case Csel(_, _, _, _, _) => (CSEL, 8)
    case Branch(_, _) => (BRANCH, 3)
    case BranchCond(_, _) => (BRANCH_COND, 4)
    case BranchReg(_, _) => (BRANCH_REG, 5)
    case Adr(_, _) => (ADR, 6)
    case Undefined => (End, 0)
  }

  lemma ShapeFills(i: Instr)
    requires Isa.Fits(i)
    ensures Fills(Form(i), Shape(i).0, Shape(i).1)
  {
    hide Fills, Form;
    DataFills(i);
    MoveFills(i);
    MemoryFills(i);
    BranchFills(i);
  }

  lemma WordFits(i: Instr)
    requires Isa.Fits(i)
    ensures Encode(i) < 0x1_0000_0000
  {
    var (shape, n) := Shape(i);
    ShapeFills(i);
    DataLengths();
    MoveLengths();
    MemoryLengths();
    BranchLengths();
    hide Fills, Form, Pack, Offset, Pow2;
    Pow2Small();
    SameOffset(Form(i), shape, n, n);
    PackBound(Form(i), shape, n);
  }

  // Loading.

  lemma TextOfWords(code: seq<Instr>) returns (ws: seq<U32>)
    requires Sound(code)
    ensures |ws| == |code| && (forall k :: 0 <= k < |ws| ==> ws[k] == Encode(code[k])) && CodeText(code) == Text(ws)
  {
    hide Encode, Encodable, Text;
    forall k | 0 <= k < |code| ensures Encode(code[k]) < 0x1_0000_0000 {
      FitsOf(code[k]);
      WordFits(code[k]);
    }
    ws := EncodeAll(code);
  }

  lemma FitsOf(i: Instr)
    requires Encodable(i)
    ensures Isa.Fits(i)
  {}

  /** Text that was emitted for code with encodings is read back as that code, at any address. */
  lemma Loaded(code: seq<Instr>, base: int)
    requires Sound(code)
    ensures IsHex(CodeText(code)) && ProgramOf(Bytes(CodeText(code)), base) == Program(base, code)
  {
    hide Encode, Decode, Encodable, Text, IsHex, Bytes, CodeText;
    var ws := TextOfWords(code);
    TextBack(ws);
    forall k | 0 <= k < |code| ensures Decode(ws[k]) == code[k] {
      RoundTrip(code[k]);
    }
  }

  // The emitted code has encodings.

  /** Word positions up to here are within the reach of every branch. */
  const REACH := 0x4_0000

  lemma SoundSmall(wide: bool, r: nat, v: int)
    requires r < 31
    ensures Sound(PushCode(wide, r)) && Sound(PopCode(wide, r)) && Sound(TeeCode(wide, r)) && Sound(MovCode(wide, r, v))
  {
    assert Encodable(LdStReg(wide, false, r, STACK, DEPTH)) && Encodable(LdStReg(wide, true, r, STACK, DEPTH));
  }

  ghost predicate SlotFits(slot: Slot) { slot.off < 4096 }

  lemma SoundAccess(slot: Slot, load: bool, rt: nat)
    requires SlotFits(slot) && rt < 32
    ensures Sound([Access(slot.wide, load, rt, 31, slot.off)])
  {}

  lemma SoundLocal(slot: Slot, tee: bool)
    requires SlotFits(slot)
    ensures Sound(GetCode(slot)) && Sound(SetCode(slot, tee))
  {
    hide Sound, Access, PushCode, PopCode, TeeCode;
    SoundSmall(slot.wide, 11, 0);
    SoundAccess(slot, true, 11);
    SoundAccess(slot, false, 11);
    SoundAppend([Access(slot.wide, true, 11, 31, slot.off)], PushCode(slot.wide, 11));
    SoundAppend(TeeCode(slot.wide, 11), [Access(slot.wide, false, 11, 31, slot.off)]);
    SoundAppend(PopCode(slot.wide, 11), [Access(slot.wide, false, 11, 31, slot.off)]);
  }

  lemma SoundCompare(wide: bool, cmp: W.Cmp)
    ensures Sound(CompareCode(wide, CondOf(cmp)))
  {
    var a, b := [Movz(true, 3, 1), Movz(true, 4, 0)], [CmpReg(wide, 11, 12), Csel(true, 0, 3, 4, CondOf(cmp))];
    assert Sound(a) && Sound(b);
    hide Sound, PushCode, PopCode, CmpReg, CondOf;
    SoundSmall(wide, 12, 0);
    SoundSmall(wide, 11, 0);
    SoundSmall(true, 0, 0);
    SoundAppend(PopCode(wide, 12), PopCode(wide, 11));
    SoundAppend(a, PopCode(wide, 12) + PopCode(wide, 11));
    SoundAppend(a + (PopCode(wide, 12) + PopCode(wide, 11)), b);
    SoundAppend(a + (PopCode(wide, 12) + PopCode(wide, 11)) + b, PushCode(true, 0));
  }

  lemma SoundArith(wide: bool, arith: W.Arith)
    ensures Sound(OperandsCode(wide)) && Sound([ArithInstr(wide, arith)]) &&
        Sound(OperandsCode(wide) + [ArithInstr(wide, arith)] + PushCode(wide, 11))
  {
    assert Sound([ArithInstr(wide, arith)]);
    hide Sound, PushCode, PopCode, ArithInstr;
    SoundSmall(wide, 11, 0);
    SoundSmall(wide, 12, 0);
    SoundAppend(PopCode(wide, 11), PopCode(wide, 12));
    SoundAppend(OperandsCode(wide), [ArithInstr(wide, arith)]);
    SoundAppend(OperandsCode(wide) + [ArithInstr(wide, arith)], PushCode(wide, 11));
  }

  lemma SoundBranch(cond: nat, link: bool, dist: int)
    requires -REACH <= dist < REACH && cond < 16
    ensures Sound([BranchCond(cond, dist)]) && Sound([Branch(link, dist)])
  {}

  lemma SoundTests(wide: bool, cond: nat, dist: int, rn: nat)
    requires -REACH <= dist < REACH && cond < 16 && rn < 32
    ensures Sound([CmpImm(wide, rn, 0), BranchCond(cond, dist)]) && Sound([CmpReg(wide, rn, 5), BranchCond(cond, dist)])
  {}

  lemma SoundCheck(wide: bool, pos: nat, normal: nat)
    requires pos + 7 + 2 * MovLength(wide) <= REACH && normal < REACH
    ensures Sound(CheckCode(wide, pos, normal))
  {
    var m := MovLength(wide);
    hide Sound, CmpImm, CmpReg, MovCode, HalfSpan;
    var a, b, c := [CmpImm(wide, 11, 0), BranchCond(EQ, PREPARE - (pos + 1))],
        [CmpReg(wide, 11, 5), BranchCond(NE, normal - (pos + 3 + m))],
                   [CmpReg(wide, 12, 5), BranchCond(NE, normal - (pos + 5 + 2 * m))];
    SoundTests(wide, EQ, PREPARE - (pos + 1), 11);
    SoundTests(wide, NE, normal - (pos + 3 + m), 11);
    SoundTests(wide, NE, normal - (pos + 5 + 2 * m), 12);
    SoundBranch(0, false, PREPARE - (pos + 6 + 2 * m));
    SoundSmall(wide, 5, -1);
    SoundSmall(wide, 5, -HalfSpan(wide));
    SoundAppend(MovCode(wide, 5, -1), b);
    SoundAppend(MovCode(wide, 5, -HalfSpan(wide)), c);
    SoundAppend(a, MovCode(wide, 5, -1) + b);
    SoundAppend(a + (MovCode(wide, 5, -1) + b), MovCode(wide, 5, -HalfSpan(wide)) + c);
    SoundAppend(a + (MovCode(wide, 5, -1) + b)
        + (MovCode(wide, 5, -HalfSpan(wide)) + c), [Branch(false, PREPARE - (pos + 6 + 2 * m))]);
  }

  lemma SoundDiv(wide: bool, arith: W.Arith, pos: nat, normal: nat)
    requires pos + DivLabel(wide) + 3 <= REACH && normal < REACH
    ensures Sound(DivCode(wide, arith, pos, normal))
  {
    hide Sound, OperandsCode, CheckCode, ArithInstr, PushCode;
    SoundArith(wide, arith);
    SoundSmall(wide, 11, 0);
    SoundCheck(wide, pos + 4, normal);
    SoundAppend(OperandsCode(wide), CheckCode(wide, pos + 4, normal));
    SoundAppend(OperandsCode(wide) + CheckCode(wide, pos + 4, normal), [ArithInstr(wide, arith)]);
    SoundAppend(OperandsCode(wide) + CheckCode(wide, pos + 4, normal) + [ArithInstr(wide, arith)], PushCode(wide, 11));
  }

  ghost predicate SlotsFit(slots: seq<Slot>) { forall i :: 0 <= i < |slots| ==> SlotFits(slots[i]) }

  lemma SoundOp(op: W.Op, pos: nat, slots: seq<Slot>, normal: nat)
    requires SlotsFit(slots) && pos + OpLength(op, slots) <= REACH && normal < REACH
    ensures Sound(OpCode(op, pos, slots, normal))
  {
    hide SetCode, GetCode, CompareCode, DivCode, OperandsCode, PushCode, MovCode, CondOf;
    match op
    case Nop =>
    case Return =>
    case Get(i) => if i < |slots| { SoundLocal(slots[i], false); }
    case Put(i) => if i < |slots| { SoundLocal(slots[i], false); }
    case Tee(i) => if i < |slots| { SoundLocal(slots[i], true); }
    case Const(wide, byte) =>
      SoundSmall(wide, 11, byte);
      SoundAppend(MovCode(wide, 11, byte), PushCode(wide, 11));
    case Compare(wide, cmp) => SoundCompare(wide, cmp);
    case Binary(wide, arith) =>
      SoundArith(wide, arith);
      if IsDiv(op) {
        SoundDiv(wide, arith, pos, normal);
      }
  }

  lemma SoundTest(skip: nat)
    requires skip + 1 < REACH
    ensures Sound(TestCode(skip))
  {
    hide Sound, TeeCode, CmpImm;
    SoundSmall(false, 11, 0);
    SoundTests(false, EQ, skip + 1, 11);
    SoundAppend(TeeCode(false, 11), [CmpImm(false, 11, 0), BranchCond(EQ, skip + 1)]);
  }

  /** Every instruction of a body's code has an encoding, as long as all its words are within reach. */
  lemma {:induction false} SoundBody(c: W.Code, pos: nat, slots: seq<Slot>, normal: nat)
    requires SlotsFit(slots) && pos + Length(c, slots) <= REACH && normal < REACH
    ensures Sound(Compile(c, pos, slots, normal))
    decreases c
  {
    hide Sound, OpCode, OpLength, TestCode, SlotsFit;
    match c
    case End => SoundNone();
    case Do(op, rest) =>
      var next := pos + OpLength(op, slots);
      SoundOp(op, pos, slots, normal);
      SoundBody(rest, next, slots, normal);
      SoundAppend(OpCode(op, pos, slots, normal), Compile(rest, next, slots, normal));
    case IfThen(_, thn, rest) =>
      var next := pos + TEST_LENGTH + Length(thn, slots);
      var a, b := TestCode(Length(thn, slots)), Compile(thn, pos + TEST_LENGTH, slots, normal);
      SoundTest(Length(thn, slots));
      SoundBody(thn, pos + TEST_LENGTH, slots, normal);
      SoundBody(rest, next, slots, normal);
      SoundAppend(a, b);
      SoundAppend(a + b, Compile(rest, next, slots, normal));
    case IfElse(_, thn, els, rest) =>
      var mid := pos + TEST_LENGTH + (Length(thn, slots) + 1);
      var next := mid + Length(els, slots);
      var a, b := TestCode(Length(thn, slots) + 1), Compile(thn, pos + TEST_LENGTH, slots, normal);
      var j, d := [Branch(false, Length(els, slots) + 1)], Compile(els, mid, slots, normal);
      SoundTest(Length(thn, slots) + 1);
      SoundBody(thn, pos + TEST_LENGTH, slots, normal);
      SoundBranch(0, false, Length(els, slots) + 1);
      SoundBody(els, mid, slots, normal);
      SoundBody(rest, next, slots, normal);
      SoundAppend(a, b);
      SoundAppend(a + b, j);
      SoundAppend(a + b + j, d);
      SoundAppend(a + b + j + d, Compile(rest, next, slots, normal));
  }

  lemma SoundNone()
    ensures Sound([])
  {}

  lemma {:induction false} SoundPairs(load: bool, k: nat)
    requires k <= 6
    ensures Sound(PairsCode(load, k))
    decreases k
  {
    if k > 0 {
      SoundPairs(load, k - 1);
      var last := [Pair(true, load, 17 + 2 * k, 18 + 2 * k, 0, 2 * k - 2, SignedOffset)];
      assert Sound(last);
      SoundAppend(PairsCode(load, k - 1), last);
    } else {
      SoundNone();
    }
  }

  lemma SoundSetJmp()
    ensures Sound(SetJmpCode())
  {
    var b, c := [MovSp(2, 31), Access(true, false, 2, 0, SP_AT)], [Movz(false, 0, 0), BranchReg(Ret, 30)];
    assert Sound(b) && Sound(c);
    SoundPairs(false, 6);
    hide Sound, PairsCode, MovSp, Access, Movz;
    SoundAppend(PairsCode(false, 6), b);
    SoundAppend(PairsCode(false, 6) + b, c);
  }

  lemma SoundLongJmp()
    ensures Sound(LongJmpCode())
  {
    var b, c := [Access(true, true, 5, 0, SP_AT), MovSp(31, 5)],
        [CmpImm(true, 1, 0), Movz(true, 0, 1), Csel(true, 0, 1, 0, NE), BranchReg(Br, 30)];
    assert Sound(b) && Sound(c);
    SoundPairs(true, 6);
    hide Sound, PairsCode, MovSp, Access, Movz, CmpImm;
    SoundAppend(PairsCode(true, 6), b);
    SoundAppend(PairsCode(true, 6) + b, c);
  }

  lemma SoundRaise(finalize: nat)
    requires finalize < REACH
    ensures Sound(RaiseCode(finalize))
  {
    var a, c := [MovReg(true, 30, 14), MovSp(31, 15)], [Branch(false, finalize - (RAISE + 4))];
    assert Sound(a) && Sound(ReturnCode(1));
    SoundBranch(0, false, finalize - (RAISE + 4));
    hide Sound, ReturnCode, MovSp;
    SoundAppend(a, ReturnCode(1));
    SoundAppend(a + ReturnCode(1), c);
  }

  lemma SoundStub(finalize: nat)
    requires finalize < REACH
    ensures Sound(StubCode(finalize))
  {
    assert Sound(PrepareCode());
    hide Sound, SetJmpCode, PrepareCode, LongJmpCode, RaiseCode;
    SoundBranch(0, false, ENTRY);
    SoundSetJmp();
    SoundLongJmp();
    SoundRaise(finalize);
    SoundAppend([Branch(false, ENTRY)], SetJmpCode());
    SoundAppend([Branch(false, ENTRY)] + SetJmpCode(), PrepareCode());
    SoundAppend([Branch(false, ENTRY)] + SetJmpCode() + PrepareCode(), LongJmpCode());
    SoundAppend([Branch(false, ENTRY)] + SetJmpCode() + PrepareCode() + LongJmpCode(), RaiseCode(finalize));
  }

  lemma {:induction false} SoundStores(slots: seq<Slot>, n: nat, k: nat)
    requires SlotsFit(slots) && k <= |slots| && n <= 32
    ensures Sound(StoresCode(slots, n, k))
    decreases |slots| - k
  {
    hide Sound, Access;
    if k < |slots| {
      var rt := if k < n then k else 31;
      SoundAccess(slots[k], false, rt);
      SoundStores(slots, n, k + 1);
      SoundAppend([Access(slots[k].wide, false, rt, 31, slots[k].off)], StoresCode(slots, n, k + 1));
    } else {
      SoundNone();
    }
  }

  lemma SoundEntry(fn: Fn)
    requires SlotsFit(Slots(fn)) && |fn.params| <= 32 && Frame(fn) < 4096
    ensures Sound(EntryCode(fn))
  {
    assert Sound([SubImm(31, 31, Frame(fn))]) && Sound(SaveLinkCode());
    hide Sound, Slots, Frame, SubImm, SaveLinkCode, StoresCode;
    SoundStores(Slots(fn), |fn.params|, 0);
    SoundAppend([SubImm(31, 31, Frame(fn))], StoresCode(Slots(fn), |fn.params|, 0));
    SoundAppend([SubImm(31, 31, Frame(fn))] + StoresCode(Slots(fn), |fn.params|, 0), SaveLinkCode());
  }

  lemma SoundGuard(fn: Fn)
    requires BackAt(fn) + 1 < REACH
    ensures Sound(GuardCode(fn))
  {
    var back := BackAt(fn);
    SoundBranch(0, true, SETJMP - (back - 1));
    SoundTests(true, NE, RAISE - (back + 1), 0);
    assert Sound(RestoreLinkCode());
    hide Sound, CmpImm, RestoreLinkCode;
    SoundAppend([Branch(true, SETJMP - (back - 1))], [CmpImm(true, 0, 0), BranchCond(NE, RAISE - (back + 1))]);
    SoundAppend([Branch(true, SETJMP - (back - 1))]
        + [CmpImm(true, 0, 0), BranchCond(NE, RAISE - (back + 1))], RestoreLinkCode());
  }

  lemma SoundExit(fn: Fn)
    requires |fn.results| <= 1 && Frame(fn) < 4096
    ensures Sound(ReturnCode(0) + FinalizeCode(fn))
  {
    assert Sound([AddImm(31, 31, Frame(fn)), BranchReg(Ret, 30)]) && Sound(ReturnCode(0));
    if |fn.results| == 1 {
      SoundSmall(fn.results[0], 0, 0);
      assert ResultsCode(fn.results, 1) == [];
      assert ResultsCode(fn.results, 0) == PopCode(fn.results[0], 0);
    } else {
      SoundNone();
    }
    assert Sound(ResultsCode(fn.results, 0));
    hide Sound, ResultsCode, ReturnCode, AddImm;
    SoundAppend(ResultsCode(fn.results, 0), [AddImm(31, 31, Frame(fn)), BranchReg(Ret, 30)]);
    SoundAppend(ReturnCode(0), FinalizeCode(fn));
  }

  /** The size of a function that is within the compiler's means. */
  ghost predicate Fits(fn: Fn) {
    |fn.params| <= 19 && |fn.results| <= 1 && Frame(fn) < 4096 && FinalizeAt(fn) < REACH
  }

  lemma SlotsOfFrame(fn: Fn)
    requires Frame(fn) < 4096
    ensures SlotsFit(Slots(fn))
  {
    FrameHoldsSlots(fn);
    forall i | 0 <= i < |Slots(fn)| ensures SlotFits(Slots(fn)[i]) {
      OffsetBelow(fn, i);
    }
  }

  lemma OffsetBelow(fn: Fn, i: nat)
    requires i < |Slots(fn)|
    ensures Slots(fn)[i].off <= LocalEnd(|fn.params|, |fn.locals|)
  {}

  lemma SoundFn(fn: Fn, normal: nat)
    requires Fits(fn) && normal < REACH
    ensures Sound(FnCode(fn, normal))
  {
    hide Sound, StubCode, EntryCode, GuardCode, Compile, ReturnCode, FinalizeCode, Slots, Length;
    SlotsOfFrame(fn);
    var a, b, c, d := StubCode(FinalizeAt(fn)), EntryCode(fn), GuardCode(fn),
        Compile(fn.body, BodyAt(fn), Slots(fn), normal);
    SoundStub(FinalizeAt(fn));
    SoundEntry(fn);
    SoundGuard(fn);
    SoundBody(fn.body, BodyAt(fn), Slots(fn), normal);
    SoundExit(fn);
    SoundAppend(a, b);
    SoundAppend(a + b, c);
    SoundAppend(a + b + c, d);
    SoundAppend(a + b + c + d, ReturnCode(0) + FinalizeCode(fn));
  }

  lemma {:induction false} SoundArgs(args: seq<W.Value>, i: nat)
    requires i <= |args| <= 31
    ensures Sound(ArgsCode(args, i))
    decreases |args| - i
  {
    hide Sound, MovCode;
    if i < |args| {
      SoundSmall(args[i].wide, i, args[i].bits);
      SoundArgs(args, i + 1);
      SoundAppend(MovCode(args[i].wide, i, args[i].bits), ArgsCode(args, i + 1));
    } else {
      SoundNone();
    }
  }

  /** The whole image has encodings. */
  lemma SoundImage(fn: Fn, normal: nat, args: seq<W.Value>)
    requires Fits(fn) && normal < REACH && |args| == |fn.params|
    ensures Sound(PrefixCode(args) + FnCode(fn, normal))
  {
    assert Sound(SetUpCode());
    hide Sound, SetUpCode, ArgsCode, FnCode;
    SoundArgs(args, 0);
    SoundAppend(SetUpCode(), ArgsCode(args, 0));
    SoundFn(fn, normal);
    SoundAppend(PrefixCode(args), FnCode(fn, normal));
  }
}
