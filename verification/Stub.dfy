/**
 The fixed code before the function's own: setjmp, preparelongjmp, longjmp and raiseException, and what each does to
 the machine.
 */
module Stub {
  import opened Numbers
  import opened Isa
  import opened Machine
  import opened Codegen
  import opened Layout
  import opened Simulation

  // The jump buffer: x19 to x30 in its first 96 bytes, sp at byte 104.

  const SP_AT := 104

  /** Saving or loading the first `k` pairs of registers from x19 on; x0 holds the buffer's address. */
  function PairsCode(load: bool, k: nat): seq<Instr> {
    if k == 0 then []
    else PairsCode(load, k - 1) + [Pair(true, load, 17 + 2 * k, 18 + 2 * k, 0, 2 * k - 2, SignedOffset)]
  }

  function SetJmpCode(): seq<Instr> {
    PairsCode(false, 6) + [MovSp(2, 31), Access(true, false, 2, 0, SP_AT)] + [Movz(false, 0, 0), BranchReg(Ret, 30)]
  }

  function PrepareCode(): seq<Instr> {
    [MovReg(true, 14, 30), MovSp(15, 31)] + [MovReg(true, 0, BUFFER), Branch(false, 1)]
  }

  function LongJmpCode(): seq<Instr> {
    PairsCode(true, 6) + [Access(true, true, 5, 0, SP_AT), MovSp(31, 5)]
    + [CmpImm(true, 1, 0), Movz(true, 0, 1), Csel(true, 0, 1, 0, NE), BranchReg(Br, 30)]
  }

  /** Storing a return code in the first word of the buffer. */
  function ReturnCode(code: nat): seq<Instr> { [Movz(true, 11, code), Access(true, false, 11, BUFFER, 0)] }

  function RaiseCode(finalize: int): seq<Instr> {
    [MovReg(true, 30, 14), MovSp(31, 15)] + ReturnCode(1) + [Branch(false, finalize - (RAISE + 4))]
  }

  function StubCode(finalize: int): seq<Instr> {
    [Branch(false, ENTRY)] + SetJmpCode() + PrepareCode() + LongJmpCode() + RaiseCode(finalize)
  }

  lemma StubLengths(finalize: int)
    ensures |PairsCode(false, 6)| == 6 && |PairsCode(true, 6)| == 6
    ensures |SetJmpCode()| == PREPARE - SETJMP && |PrepareCode()| == LONGJMP - PREPARE
        && |LongJmpCode()| == RAISE - LONGJMP
    ensures |RaiseCode(finalize)| == ENTRY - RAISE && |StubCode(finalize)| == ENTRY
  {
    PairsLength(false, 6);
    PairsLength(true, 6);
  }

  lemma {:induction false} PairsLength(load: bool, k: nat)
    ensures |PairsCode(load, k)| == k && forall i | i in PairsCode(load, k) :: !IsBranch(i)
  {
    if k > 0 {
      PairsLength(load, k - 1);
    }
  }

  // Saving and loading registers.

  /** The buffer at `buf` holds x19 and the registers after it up to the first `n`. */
  ghost predicate Holds(m: Mem, buf: int, regs: Regs, n: nat)
    requires n <= 12
  {
    forall j :: 0 <= j < n ==> Load(m, buf + 8 * j, true) == regs[19 + j]
  }

  /** Memory is the same but for `n` bytes at `a`. */
  ghost predicate SameBut(m: Mem, m': Mem, a: int, n: nat) {
    forall b :: Apart(b, 4, a, n) ==> Peek(m', b) == Peek(m, b)
  }

  predicate BufferFits(buf: int) { 0 <= buf && buf % 4 == 0 && buf + 112 <= TWO64 }

  lemma PairAddress(buf: int, k: nat)
    requires BufferFits(buf) && 0 < k <= 6
    ensures (buf + (2 * k - 2) * 8) % 0x1_0000_0000_0000_0000 == buf + 16 * k - 16
    ensures Allowed(buf + 16 * k - 16, 16)
  {}

  lemma NextSavePair(s: State, k: nat, buf: int)
    requires BufferFits(buf) && 0 < k <= 6 && s.regs[0] == buf
    ensures
      var a := buf + 16 * k - 16;
      Next(Pair(true, false, 17 + 2 * k, 18 + 2 * k, 0, 2 * k - 2, SignedOffset), s) ==
        Some(s.(mem := Store(Store(s.mem, a, true, s.regs[17 + 2 * k]), a + 8, true, s.regs[18 + 2 * k]), pc := s.pc
            + 4))
  {
    PairAddress(buf, k);
  }

  lemma StoreTwo(m: Mem, a: int, u: U64, v: U64)
    ensures
      var m' := Store(Store(m, a, true, u), a + 8, true, v);
      Load(m', a, true) == u && Load(m', a + 8, true) == v && SameBut(m, m', a, 16)
  {}

  lemma LoadSame(m: Mem, m': Mem, a: int, n: nat, b: int)
    requires SameBut(m, m', a, n) && Apart(b, 8, a, n)
    ensures Load(m', b, true) == Load(m, b, true)
  {
    assert Peek(m', b) == Peek(m, b) && Peek(m', b + 4) == Peek(m, b + 4);
  }

  lemma SavedMore(m: Mem, m': Mem, buf: int, regs: Regs, k: nat)
    requires 0 < k <= 6 && Holds(m, buf, regs, 2 * k - 2)
    requires m' == Store(Store(m, buf + 16 * k - 16, true, regs[17 + 2 * k]), buf + 16 * k - 8, true, regs[18 + 2 * k])
    ensures Holds(m', buf, regs, 2 * k)
    ensures SameBut(m, m', buf, 16 * k)
  {
    var a := buf + 16 * k - 16;
    StoreTwo(m, a, regs[17 + 2 * k], regs[18 + 2 * k]);
    forall j | 0 <= j < 2 * k ensures Load(m', buf + 8 * j, true) == regs[19 + j] {
      if j < 2 * k - 2 {
        LoadSame(m, m', a, 16, buf + 8 * j);
      }
    }
  }

  lemma {:induction false} ExecSave(s: State, k: nat, buf: int) returns (t: State)
    requires BufferFits(buf) && k <= 6 && s.regs[0] == buf
    ensures Exec(PairsCode(false, k), s) == Some(t) && t == s.(mem := t.mem, pc := s.pc + 4 * k)
    ensures Holds(t.mem, buf, s.regs, 2 * k) && SameBut(s.mem, t.mem, buf, 96)
    decreases k
  {
    if k == 0 {
      t := s;
    } else {
      var u := ExecSave(s, k - 1, buf);
      var i := Pair(true, false, 17 + 2 * k, 18 + 2 * k, 0, 2 * k - 2, SignedOffset);
      NextSavePair(u, k, buf);
      t := Next(i, u).value;
      SavedMore(u.mem, t.mem, buf, s.regs, k);
      ExecOne(i, u);
      ExecAppend(PairsCode(false, k - 1), [i], s);
    }
  }

  lemma NextLoadPair(s: State, k: nat, buf: int)
    requires BufferFits(buf) && 0 < k <= 6 && s.regs[0] == buf
    ensures
      var a := buf + 16 * k - 16;
      Next(Pair(true, true, 17 + 2 * k, 18 + 2 * k, 0, 2 * k - 2, SignedOffset), s) ==
        Some(s.(regs := s.regs[17 + 2 * k := Load(s.mem, a, true)][18 + 2 * k := Load(s.mem, a + 8, true)], pc := s.pc
            + 4))
  {
    PairAddress(buf, k);
  }

  lemma LoadedMore(m: Mem, buf: int, regs: Regs, regs': Regs, k: nat)
    requires 0 < k <= 6 && Holds(m, buf, regs, 2 * k - 2)
    requires regs' == regs[17 + 2 * k := Load(m, buf + 16 * k - 16, true)][18
        + 2 * k := Load(m, buf + 16 * k - 8, true)]
    ensures Holds(m, buf, regs', 2 * k)
  {
    hide Load;
    forall j | 0 <= j < 2 * k ensures Load(m, buf + 8 * j, true) == regs'[19 + j] {
      if j == 2 * k - 2 {
        assert buf + 8 * j == buf + 16 * k - 16;
      } else if j == 2 * k - 1 {
        assert buf + 8 * j == buf + 16 * k - 8;
      }
    }
  }

  /** Every register but the first `n` saved ones is the same. */
  ghost predicate SameRegs(regs: Regs, regs': Regs, n: nat) {
    forall r :: 0 <= r < 31 && !(19 <= r < 19 + n) ==> regs'[r] == regs[r]
  }

  lemma {:induction false} ExecLoad(s: State, k: nat, buf: int) returns (t: State)
    requires BufferFits(buf) && k <= 6 && s.regs[0] == buf
    ensures Exec(PairsCode(true, k), s) == Some(t) && t == s.(regs := t.regs, pc := s.pc + 4 * k)
    ensures Holds(s.mem, buf, t.regs, 2 * k) && SameRegs(s.regs, t.regs, 2 * k)
    decreases k
  {
    hide Load, Effect, Next, Holds;
    if k == 0 {
      t := s;
      HoldsNone(s.mem, buf, s.regs);
    } else {
      var u := ExecLoad(s, k - 1, buf);
      var i := Pair(true, true, 17 + 2 * k, 18 + 2 * k, 0, 2 * k - 2, SignedOffset);
      NextLoadPair(u, k, buf);
      t := Next(i, u).value;
      LoadedMore(s.mem, buf, u.regs, t.regs, k);
      ExecOne(i, u);
      ExecAppend(PairsCode(true, k - 1), [i], s);
    }
  }

  lemma HoldsNone(m: Mem, buf: int, regs: Regs)
    ensures Holds(m, buf, regs, 0)
  {}

  // The four routines.

  lemma NextMovSp(s: State, rd: nat, rn: nat)
    requires rd < 32 && rn < 32
    ensures Next(MovSp(rd, rn), s) == Some(SetXSp(s, rd, XSp(s, rn)).(pc := s.pc + 4))
  {
    ModSmall(XSp(s, rn));
  }

  /** A 64-bit access to the buffer. */
  lemma NextBuffer(s: State, load: bool, rt: nat, rn: nat, buf: int, off: nat)
    requires rt < 31 && rn < 31 && s.regs[rn] == buf && BufferFits(buf) && off % 8 == 0 && off <= 104
    ensures Next(Access(true, load, rt, rn, off), s) ==
            Some(if load then s.(regs := s.regs[rt := Load(s.mem, buf + off, true)], pc := s.pc + 4)
                 else s.(mem := Store(s.mem, buf + off, true, s.regs[rt]), pc := s.pc + 4))
  {
    ModSmall(buf + off);
  }

  lemma NextMovZero(s: State, wide: bool, rd: nat, imm: nat)
    requires rd < 31 && imm < 0x1_0000
    ensures Next(Movz(wide, rd, imm), s) == Some(s.(regs := s.regs[rd := imm], pc := s.pc + 4))
  {}

  lemma NextMovReg(s: State, rd: nat, rm: nat)
    requires rd < 31 && rm < 31
    ensures Next(MovReg(true, rd, rm), s) == Some(s.(regs := s.regs[rd := s.regs[rm]], pc := s.pc + 4))
  {}

  lemma StepAt(p: Program, pos: int, i: Instr, s: State)
    requires CodeAt(p, pos, [i]) && s.pc == p.base + 4 * pos
    ensures InCode(p, s.pc) && p.code[(s.pc - p.base) / 4] == i
  {
    assert p.code[pos..pos + 1][0] == i;
  }

  /** A branch to the address in register `rn`, without link. */
  lemma ReachesRegister(p: Program, pos: int, jump: JumpKind, rn: nat, s: State) returns (t: State)
    requires CodeAt(p, pos, [BranchReg(jump, rn)]) && s.pc == p.base + 4 * pos && rn < 31 && !jump.Blr?
    ensures t == s.(pc := s.regs[rn]) && Reaches(p, s, t)
  {
    StepAt(p, pos, BranchReg(jump, rn), s);
    t := s.(pc := s.regs[rn]);
    ReachesStep(p, s, t);
  }

  lemma SaveSp(m: Mem, buf: int, sp: U64)
    ensures
      var m' := Store(m, buf + SP_AT, true, sp);
      Load(m', buf + SP_AT, true) == sp && SameBut(m, m', buf, 112)
      && forall j :: 0 <= j < 12 ==> Load(m', buf + 8 * j, true) == Load(m, buf + 8 * j, true)
  {}

  /** What setjmp leaves: the saved registers and sp, x2 holding sp, x0 zero, and the rest as before. */
  ghost predicate Jumped(s: State, t: State, buf: int) {
    && t.regs == s.regs[2 := s.sp][0 := 0] && t.sp == s.sp
    && Holds(t.mem, buf, s.regs, 12) && Load(t.mem, buf + SP_AT, true) == s.sp && SameBut(s.mem, t.mem, buf, 112)
  }

  lemma ExecSetJmp(s: State, buf: int) returns (t: State)
    requires BufferFits(buf) && s.regs[0] == buf
    ensures Exec(PairsCode(false, 6) + [MovSp(2, 31), Access(true, false, 2, 0, SP_AT)] + [Movz(false, 0, 0)], s) ==
        Some(t)
    ensures Jumped(s, t, buf) && t.pc == s.pc + 36
  {
    hide Next, Store, Load;
    var a, b := PairsCode(false, 6), [MovSp(2, 31), Access(true, false, 2, 0, SP_AT)];
    var u := ExecSave(s, 6, buf);
    var v := u.(regs := u.regs[2 := u.sp], pc := u.pc + 4);
    var w := v.(mem := Store(v.mem, buf + SP_AT, true, v.regs[2]), pc := v.pc + 4);
    NextMovSp(u, 2, 31);
    NextBuffer(v, false, 2, 0, buf, SP_AT);
    ExecTwoTo(MovSp(2, 31), Access(true, false, 2, 0, SP_AT), u, v, w);
    SaveSp(v.mem, buf, s.sp);
    NextMovZero(w, false, 0, 0);
    t := w.(regs := w.regs[0 := 0], pc := w.pc + 4);
    ExecOne(Movz(false, 0, 0), w);
    ExecAppend(a, b, s);
    ExecAppend(a + b, [Movz(false, 0, 0)], s);
  }

  /** setjmp, called with the buffer's address in x0, returns 0 to its caller. */
  lemma RunSetJmp(p: Program, s: State, buf: int) returns (t: State)
    requires CodeAt(p, SETJMP, SetJmpCode()) && s.pc == p.base + 4 * SETJMP && BufferFits(buf) && s.regs[0] == buf
    ensures Reaches(p, s, t) && Jumped(s, t, buf) && t.pc == s.regs[30]
  {
    hide CodeAt, Exec, Jumped;
    var a, ret := PairsCode(false, 6) + [MovSp(2, 31), Access(true, false, 2, 0, SP_AT)]
        + [Movz(false, 0, 0)], [BranchReg(Ret, 30)];
    PairsLength(false, 6);
    assert SetJmpCode() == a + ret;
    CodeAtSplit(p, SETJMP, a, ret);
    var u := ExecSetJmp(s, buf);
    ReachesExec(p, SETJMP, a, s);
    JumpedLink(s, u, buf);
    t := ReachesRegister(p, SETJMP + 9, Ret, 30, u);
    JumpedPc(s, u, t, buf);
    ReachesTrans(p, s, u, t);
  }

  lemma JumpedLink(s: State, t: State, buf: int)
    requires Jumped(s, t, buf)
    ensures t.regs[30] == s.regs[30]
  {}

  lemma JumpedPc(s: State, t: State, u: State, buf: int)
    requires Jumped(s, t, buf) && u == t.(pc := u.pc)
    ensures Jumped(s, u, buf)
  {}

  /** preparelongjmp keeps x30 and sp in x14 and x15, and goes on to longjmp with the buffer's address in x0. */
  lemma RunPrepare(p: Program, s: State) returns (t: State)
    requires CodeAt(p, PREPARE, PrepareCode()) && s.pc == p.base + 4 * PREPARE
    ensures t == s.(regs := s.regs[14 := s.regs[30]][15 := s.sp][0 := s.regs[BUFFER]], pc := p.base + 4 * LONGJMP)
    ensures Reaches(p, s, t)
  {
    hide CodeAt, Next;
    var a, b, c := [MovReg(true, 14, 30), MovSp(15, 31)], [MovReg(true, 0, BUFFER)], [Branch(false, 1)];
    assert PrepareCode() == a + b + c;
    CodeAtSplit(p, PREPARE, a + b, c);
    var u := s.(regs := s.regs[14 := s.regs[30]], pc := s.pc + 4);
    var v := u.(regs := u.regs[15 := s.sp], pc := u.pc + 4);
    var w := v.(regs := v.regs[0 := s.regs[BUFFER]], pc := v.pc + 4);
    NextMovReg(s, 14, 30);
    NextMovSp(u, 15, 31);
    ExecTwoTo(MovReg(true, 14, 30), MovSp(15, 31), s, u, v);
    NextMovReg(v, 0, BUFFER);
    ExecOne(MovReg(true, 0, BUFFER), v);
    ExecAppend(a, b, s);
    ReachesExec(p, PREPARE, a + b, s);
    t := ReachesJump(p, PREPARE + 3, w, 1);
    ReachesTrans(p, s, w, t);
  }

  /** longjmp's test: x0 becomes x1, or 1 when x1 is zero. */
  lemma ExecNonzero(s: State) returns (t: State)
    ensures Exec([CmpImm(true, 1, 0), Movz(true, 0, 1)] + [Csel(true, 0, 1, 0, NE)], s) == Some(t)
    ensures t.regs == s.regs[0 := if s.regs[1] == 0 then 1 else s.regs[1]] && t.mem == s.mem && t.sp == s.sp
        && t.pc == s.pc + 12
  {
    var u := SetFlags(s, AddSub(s.regs[1], 0, true, true)).(pc := s.pc + 4);
    NextCompareZero(s, true, 1);
    CompareFlags(s.regs[1], 0, true);
    NextMovZero(u, true, 0, 1);
    var v := u.(regs := u.regs[0 := 1], pc := u.pc + 4);
    ExecTwoTo(CmpImm(true, 1, 0), Movz(true, 0, 1), s, u, v);
    SelectNonzero(v);
    t := v.(regs := v.regs[0 := if v.z then v.regs[0] else v.regs[1]], pc := v.pc + 4);
    ExecOne(Csel(true, 0, 1, 0, NE), v);
    ExecAppend([CmpImm(true, 1, 0), Movz(true, 0, 1)], [Csel(true, 0, 1, 0, NE)], s);
  }

  lemma SelectNonzero(s: State)
    ensures Next(Csel(true, 0, 1, 0, NE), s) ==
        Some(s.(regs := s.regs[0 := if s.z then s.regs[0] else s.regs[1]], pc := s.pc + 4))
  {}

  /** What longjmp leaves: the saved registers and sp, and x0 not zero. */
  ghost predicate Returned(s: State, t: State, buf: int) {
    && Holds(s.mem, buf, t.regs, 12) && t.sp == Load(s.mem, buf + SP_AT, true) && t.mem == s.mem
    && t.regs[0] != 0 && forall r :: 0 <= r < 19 && r != 0 && r != 5 ==> t.regs[r] == s.regs[r]
  }

  lemma ExecLongJmp(s: State, buf: int) returns (t: State)
    requires BufferFits(buf) && s.regs[0] == buf
    ensures
      Exec(PairsCode(true, 6) + [Access(true, true, 5, 0, SP_AT), MovSp(31, 5)]
           + ([CmpImm(true, 1, 0), Movz(true, 0, 1)] + [Csel(true, 0, 1, 0, NE)]), s) == Some(t)
    ensures Returned(s, t, buf) && t.pc == s.pc + 44
  {
    hide Next, Store, Load, Exec;
    var a, b := PairsCode(true, 6), [Access(true, true, 5, 0, SP_AT), MovSp(31, 5)];
    var u := ExecLoad(s, 6, buf);
    var v := u.(regs := u.regs[5 := Load(u.mem, buf + SP_AT, true)], pc := u.pc + 4);
    var w := v.(sp := v.regs[5], pc := v.pc + 4);
    NextBuffer(u, true, 5, 0, buf, SP_AT);
    NextMovSp(v, 31, 5);
    ExecTwoTo(Access(true, true, 5, 0, SP_AT), MovSp(31, 5), u, v, w);
    t := ExecNonzero(w);
    ExecAppend(a, b, s);
    ExecAppend(a + b, [CmpImm(true, 1, 0), Movz(true, 0, 1)] + [Csel(true, 0, 1, 0, NE)], s);
  }

  /** longjmp goes back to the saved return address. */
  lemma RunLongJmp(p: Program, s: State, buf: int) returns (t: State)
    requires CodeAt(p, LONGJMP, LongJmpCode()) && s.pc == p.base + 4 * LONGJMP && BufferFits(buf) && s.regs[0] == buf
    ensures Reaches(p, s, t) && Returned(s, t, buf) && t.pc == t.regs[30]
  {
    hide CodeAt, Exec, Holds;
    var a := PairsCode(true, 6) + [Access(true, true, 5, 0, SP_AT), MovSp(31, 5)]
        + ([CmpImm(true, 1, 0), Movz(true, 0, 1)] + [Csel(true, 0, 1, 0, NE)]);
    PairsLength(true, 6);
    assert LongJmpCode() == a + [BranchReg(Br, 30)];
    CodeAtSplit(p, LONGJMP, a, [BranchReg(Br, 30)]);
    var u := ExecLongJmp(s, buf);
    ReachesExec(p, LONGJMP, a, s);
    t := ReachesRegister(p, LONGJMP + 11, Br, 30, u);
    ReachesTrans(p, s, u, t);
  }

  /** raiseException puts back x30 and sp from x14 and x15, stores return code 1, and goes on to finalize. */
  lemma RunRaise(p: Program, s: State, buf: int, finalize: int) returns (t: State)
    requires CodeAt(p, RAISE, RaiseCode(finalize)) && s.pc == p.base + 4 * RAISE && BufferFits(buf)
        && s.regs[BUFFER] == buf
    ensures Reaches(p, s, t) && t.pc == p.base + 4 * finalize && t.sp == s.regs[15]
    ensures t.regs == s.regs[30 := s.regs[14]][11 := 1] && t.mem == Store(s.mem, buf, true, 1)
  {
    hide CodeAt, Next, Store;
    var a, b, c := [MovReg(true, 30, 14), MovSp(31, 15)], ReturnCode(1), [Branch(false, finalize - (RAISE + 4))];
    CodeAtSplit(p, RAISE, a + b, c);
    var u := s.(regs := s.regs[30 := s.regs[14]], pc := s.pc + 4);
    var v := u.(sp := s.regs[15], pc := u.pc + 4);
    NextMovReg(s, 30, 14);
    NextMovSp(u, 31, 15);
    ExecTwoTo(MovReg(true, 30, 14), MovSp(31, 15), s, u, v);
    var w := ExecReturnCode(v, buf, 1);
    ExecAppend(a, b, s);
    ReachesExec(p, RAISE, a + b, s);
    t := ReachesJump(p, RAISE + 4, w, finalize - (RAISE + 4));
    ReachesTrans(p, s, w, t);
  }

  lemma ExecReturnCode(s: State, buf: int, code: nat) returns (t: State)
    requires BufferFits(buf) && s.regs[BUFFER] == buf && code < 0x1_0000
    ensures Exec(ReturnCode(code), s) == Some(t)
    ensures t == s.(regs := s.regs[11 := code], mem := Store(s.mem, buf, true, code), pc := s.pc + 8)
  {
    hide Next, Store;
    var u := s.(regs := s.regs[11 := code], pc := s.pc + 4);
    t := u.(mem := Store(u.mem, buf, true, code), pc := u.pc + 4);
    NextMovZero(s, true, 11, code);
    NextBuffer(u, false, 11, BUFFER, buf, 0);
    ExecTwoTo(Movz(true, 11, code), Access(true, false, 11, BUFFER, 0), s, u, t);
  }
}
