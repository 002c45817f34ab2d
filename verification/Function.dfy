/**
 The complete code of a function, and what a call of it does: the result or the trap, the return code, and what the
 caller gets back unchanged.
 */
module Function {
  import opened Numbers
  import opened Isa
  import opened Machine
  import opened Codegen
  import opened Layout
  import opened Simulation
  import opened Body
  import opened Stub
  import W = Wasm

  // The code.

  function Vars(fn: Fn): nat { |fn.params| + |fn.locals| }

  /** The first word of the body. */
  function BodyAt(fn: Fn): nat { ENTRY + 7 + Vars(fn) }

  /** The word after the call of setjmp. */
  function BackAt(fn: Fn): nat { ENTRY + 4 + Vars(fn) }

  /** The word of the label `finalize`. */
  function FinalizeAt(fn: Fn): nat { BodyAt(fn) + Length(fn.body, Slots(fn)) + 2 }

  /**
   The first stores of variables from number `k` on: parameters from their registers, locals from the zero register.
   */
  function StoresCode(slots: seq<Slot>, n: nat, k: nat): seq<Instr>
    requires k <= |slots|
    decreases |slots| - k
  {
    if k == |slots| then []
    else [Access(slots[k].wide, false, if k < n then k else 31, 31, slots[k].off)] + StoresCode(slots, n, k + 1)
  }

  function ResultsCode(results: seq<bool>, i: nat): seq<Instr>
    requires i <= |results|
    decreases |results| - i
  {
    if i == |results| then [] else PopCode(results[i], i) + ResultsCode(results, i + 1)
  }

  function SaveLinkCode(): seq<Instr> { [Pair(true, false, 29, 30, 31, -4, PreIndex), MovReg(true, 0, BUFFER)] }

  function RestoreLinkCode(): seq<Instr> { [Pair(true, true, 29, 30, 31, 4, PostIndex)] }

  function EntryCode(fn: Fn): seq<Instr> {
    [SubImm(31, 31, Frame(fn))] + StoresCode(Slots(fn), |fn.params|, 0) + SaveLinkCode()
  }

  /** The call of setjmp and the test of what it returns. */
  function GuardCode(fn: Fn): seq<Instr> {
    [Branch(true, SETJMP - (BackAt(fn) - 1))] + [CmpImm(true, 0, 0), BranchCond(NE, RAISE - (BackAt(fn) + 1))]
        + RestoreLinkCode()
  }

  function FinalizeCode(fn: Fn): seq<Instr> {
    ResultsCode(fn.results, 0) + [AddImm(31, 31, Frame(fn)), BranchReg(Ret, 30)]
  }

  /** The whole function; `normal` is the word that the label `normal_div` stands for. */
  function FnCode(fn: Fn, normal: int): seq<Instr> {
    StubCode(FinalizeAt(fn)) + EntryCode(fn) + GuardCode(fn) + Compile(fn.body, BodyAt(fn), Slots(fn), normal)
    + (ReturnCode(0) + FinalizeCode(fn))
  }

  lemma {:induction false} StoresLength(slots: seq<Slot>, n: nat, k: nat)
    requires k <= |slots|
    ensures |StoresCode(slots, n, k)| == |slots| - k
    ensures forall i | i in StoresCode(slots, n, k) :: !IsBranch(i)
    decreases |slots| - k
  {
    if k < |slots| {
      StoresLength(slots, n, k + 1);
    }
  }

  /** Where the parts are. */
  ghost predicate Placed(p: Program, fn: Fn, normal: int) {
    && CodeAt(p, 0, StubCode(FinalizeAt(fn))) && CodeAt(p, ENTRY, EntryCode(fn))
        && CodeAt(p, BackAt(fn) - 1, GuardCode(fn))
    && CodeAt(p, BodyAt(fn), Compile(fn.body, BodyAt(fn), Slots(fn), normal))
    && CodeAt(p, FinalizeAt(fn) - 2, ReturnCode(0) + FinalizeCode(fn))
  }

  lemma PartLengths(fn: Fn)
    ensures |EntryCode(fn)| == Vars(fn) + 3 && |GuardCode(fn)| == 4
  {
    StoresLength(Slots(fn), |fn.params|, 0);
  }

  lemma CodeAtWhole(p: Program)
    ensures CodeAt(p, 0, p.code)
  {
    assert p.code[0..|p.code|] == p.code;
  }

  lemma WholePlaced(p: Program, fn: Fn, normal: int)
    requires p.code == FnCode(fn, normal)
    ensures Placed(p, fn, normal)
  {
    hide StubCode, EntryCode, GuardCode, Compile, ReturnCode, FinalizeCode, Length, CodeAt;
    StubLengths(FinalizeAt(fn));
    PartLengths(fn);
    CompileLength(fn.body, BodyAt(fn), Slots(fn), normal);
    CodeAtWhole(p);
    CodeAtFive(p, 0, ENTRY, BackAt(fn) - 1, BodyAt(fn), FinalizeAt(fn) - 2, StubCode(FinalizeAt(fn)), EntryCode(fn),
        GuardCode(fn),
               Compile(fn.body, BodyAt(fn), Slots(fn), normal), ReturnCode(0) + FinalizeCode(fn));
  }

  lemma StubPlaced(p: Program, finalize: int)
    requires CodeAt(p, 0, StubCode(finalize))
    ensures CodeAt(p, 0, [Branch(false, ENTRY)]) && CodeAt(p, SETJMP, SetJmpCode()) && CodeAt(p, PREPARE, PrepareCode())
    ensures CodeAt(p, LONGJMP, LongJmpCode()) && CodeAt(p, RAISE, RaiseCode(finalize))
  {
    StubLengths(finalize);
    hide CodeAt, SetJmpCode, PrepareCode, LongJmpCode, RaiseCode;
    CodeAtFive(p, 0, SETJMP, PREPARE, LONGJMP, RAISE, [Branch(false, ENTRY)], SetJmpCode(), PrepareCode(),
        LongJmpCode(), RaiseCode(finalize));
  }

  lemma GuardPlaced(p: Program, fn: Fn)
    requires CodeAt(p, BackAt(fn) - 1, GuardCode(fn))
    ensures CodeAt(p, BackAt(fn) - 1, [Branch(true, SETJMP - (BackAt(fn) - 1))])
    ensures CodeAt(p, BackAt(fn), [CmpImm(true, 0, 0), BranchCond(NE, RAISE - (BackAt(fn) + 1))])
    ensures CodeAt(p, BackAt(fn) + 2, RestoreLinkCode())
  {
    CodeAtThree(p, BackAt(fn) - 1, BackAt(fn), BackAt(fn) + 2, [Branch(true, SETJMP - (BackAt(fn) - 1))],
                [CmpImm(true, 0, 0), BranchCond(NE, RAISE - (BackAt(fn) + 1))], RestoreLinkCode());
  }

  // Entry: the frame, the first stores, the link registers.

  lemma NextSubSp(s: State, imm: nat)
    requires imm < 4096 && imm <= s.sp
    ensures Next(SubImm(31, 31, imm), s) == Some(s.(sp := s.sp - imm, pc := s.pc + 4))
  {}

  lemma NextAddSp(s: State, imm: nat)
    requires imm < 4096 && s.sp + imm < TWO64
    ensures Next(AddImm(31, 31, imm), s) == Some(s.(sp := s.sp + imm, pc := s.pc + 4))
  {}

  lemma NextStoreVar(s: State, slot: Slot, rt: nat, a: int)
    requires rt < 32 && a == s.sp + Effective(slot) && Allowed(a, Size(slot.wide))
    ensures Next(Access(slot.wide, false, rt, 31, slot.off), s) ==
        Some(s.(mem := Store(s.mem, a, slot.wide, X(s, rt)), pc := s.pc + 4))
  {
    ModSmall(a);
  }

  /** The first `k` variables have their first values. */
  ghost predicate Filled(x: Ctx, m: Mem, vals: seq<W.Value>, k: nat)
    requires k <= |vals| == |x.slots|
  {
    forall i :: 0 <= i < k ==> InMemory(m, SlotAt(x, i), vals[i])
  }

  ghost predicate TypesMatch(x: Ctx, vals: seq<W.Value>) {
    |vals| == |x.slots| && forall i :: 0 <= i < |vals| ==> vals[i].wide == x.slots[i].wide
  }

  /** Where the first value of variable `k` comes from. */
  function Source(n: nat, k: nat): nat { if k < n then k else 31 }

  lemma StoreOneVar(x: Ctx, m: Mem, vals: seq<W.Value>, k: nat)
    requires Separate(x) && TypesMatch(x, vals) && k < |vals| && Filled(x, m, vals, k)
    ensures
      var m' := Store(m, SlotAt(x, k), vals[k].wide, vals[k].bits);
      Filled(x, m', vals, k + 1) && SameBut(m, m', x.fp, x.extent)
  {
    var at := SlotAt(x, k);
    var m' := Store(m, at, vals[k].wide, vals[k].bits);
    LoadStored(m, at, vals[k].wide, vals[k].bits);
    PartFits(vals[k].bits, vals[k].wide);
    forall i | 0 <= i < k ensures InMemory(m', SlotAt(x, i), vals[i]) {
      LoadAfterStore(m, at, vals[k].wide, vals[k].bits, SlotAt(x, i), vals[i].wide);
    }
  }

  lemma SameButTrans(m: Mem, m': Mem, m'': Mem, a: int, n: nat)
    requires SameBut(m, m', a, n) && SameBut(m', m'', a, n)
    ensures SameBut(m, m'', a, n)
  {}

  lemma {:induction false} ExecStores(x: Ctx, s: State, vals: seq<W.Value>, n: nat, k: nat) returns (t: State)
    requires Separate(x) && TypesMatch(x, vals) && k <= |vals| && n < 31 && s.sp == x.fp && Filled(x, s.mem, vals, k)
    requires forall i :: k <= i < |vals| ==> vals[i].bits == X(s, Source(n, i))
    ensures Exec(StoresCode(x.slots, n, k), s) == Some(t) && t == s.(mem := t.mem, pc := s.pc + 4 * (|vals| - k))
    ensures Filled(x, t.mem, vals, |vals|) && SameBut(s.mem, t.mem, x.fp, x.extent)
    decreases |vals| - k
  {
    hide Separate, Filled, SameBut, Store, Next;
    if k == |vals| {
      t := s;
      SameButRefl(s.mem, x.fp, x.extent);
    } else {
      var i := Access(x.slots[k].wide, false, Source(n, k), 31, x.slots[k].off);
      SlotAllowed(x, k);
      NextStoreVar(s, x.slots[k], Source(n, k), SlotAt(x, k));
      var u := s.(mem := Store(s.mem, SlotAt(x, k), vals[k].wide, vals[k].bits), pc := s.pc + 4);
      StoreOneVar(x, s.mem, vals, k);
      t := ExecStores(x, u, vals, n, k + 1);
      SameButTrans(s.mem, u.mem, t.mem, x.fp, x.extent);
      ExecOne(i, s);
      ExecAppend([i], StoresCode(x.slots, n, k + 1), s);
    }
  }

  lemma SameButRefl(m: Mem, a: int, n: nat)
    ensures SameBut(m, m, a, n)
  {}

  /** Pushing x29 and x30. */
  lemma NextSaveLink(s: State, fp: int)
    requires s.sp == fp && fp % 4 == 0 && 32 <= fp
    ensures Next(Pair(true, false, 29, 30, 31, -4, PreIndex), s) ==
            Some(s.(mem := Store(Store(s.mem, fp - 32, true, s.regs[29]), fp - 24, true, s.regs[30]), sp := fp - 32,
                pc := s.pc + 4))
  {
    ModSmall(fp - 32);
  }

  lemma NextRestoreLink(s: State, fp: int)
    requires s.sp == fp - 32 && fp % 4 == 0 && 32 <= fp < TWO64
    ensures Next(Pair(true, true, 29, 30, 31, 4, PostIndex), s) ==
            Some(s.(regs := s.regs[29 := Load(s.mem, fp - 32, true)][30 := Load(s.mem, fp - 24, true)], sp := fp,
                pc := s.pc + 4))
  {
    ModSmall(fp);
  }

  // A call.

  /** The first values of the variables: the arguments, then zeros. */
  function FirstVals(fn: Fn, args: seq<W.Value>): seq<W.Value> {
    args + seq(|fn.locals|, i requires 0 <= i < |fn.locals| => W.Val(fn.locals[i], 0))
  }

  /**
   The function is about to be run with the given arguments: its code is in place, the regions are apart, the
   arguments are in x0 and up, x19 has the jump buffer, x20 the operand stack, and x21 zero.
   */
  ghost predicate Entered(x: Ctx, fn: Fn, normal: int, args: seq<W.Value>, s: State) {
    && x.p.code == FnCode(fn, normal) && 0 <= x.p.base && x.p.base + 4 * |x.p.code| < TWO64
    && x.slots == Slots(fn) && x.extent == Extent(fn) && Separate(x) && 8 <= x.wst
    && |fn.params| <= 19 && Frame(fn) < 4096 && |fn.results| <= 1
    && |args| == |fn.params| && (forall i :: 0 <= i < |args| ==>
        args[i].wide == fn.params[i] && s.regs[i] == args[i].bits)
    && s.pc == x.p.base && s.sp == x.fp + Frame(fn)
    && s.regs[BUFFER] == x.buf && s.regs[STACK] == x.wst && s.regs[DEPTH] == 0
  }

  /** Memory outside the jump buffer, the operand stack, the frame and the saved link registers is the same. */
  ghost predicate Elsewhere(x: Ctx, m: Mem, m': Mem) {
    forall a ::
      && Apart(a, 4, x.buf, BUFFER_BYTES)
      && Apart(a, 4, x.wst, STACK_BYTES)
      && Apart(a, 4, x.fp - SAVE_BYTES, SAVE_BYTES + x.extent)
      ==> Peek(m', a) == Peek(m, a)
  }

  /** The operand stack's memory is the same. */
  ghost predicate StackKept(x: Ctx, m: Mem, m': Mem) {
    forall a :: x.wst <= a && a + 4 <= x.wst + STACK_BYTES ==> Peek(m', a) == Peek(m, a)
  }

  lemma FirstTypes(x: Ctx, fn: Fn, normal: int, args: seq<W.Value>, s: State)
    requires Entered(x, fn, normal, args, s)
    ensures TypesMatch(x, FirstVals(fn, args))
    ensures forall i :: 0 <= i < |x.slots| ==> FirstVals(fn, args)[i].bits == X(s, Source(|fn.params|, i))
  {
    hide Separate, FnCode;
    var vals := FirstVals(fn, args);
    forall i | 0 <= i < |x.slots| ensures vals[i].wide == x.slots[i].wide
        && vals[i].bits == X(s, Source(|fn.params|, i)) {
      assert x.slots[i].wide == Widths(fn)[i];
    }
  }

  /** The saved x29 and x30. */
  ghost predicate Linked(x: Ctx, m: Mem, s: State) {
    Load(m, x.fp - 32, true) == s.regs[29] && Load(m, x.fp - 24, true) == s.regs[30]
  }

  lemma LinkStored(x: Ctx, m: Mem, s: State, vals: seq<W.Value>)
    requires Separate(x) && TypesMatch(x, vals) && Filled(x, m, vals, |vals|)
    ensures
      var m' := Store(Store(m, x.fp - 32, true, s.regs[29]), x.fp - 24, true, s.regs[30]);
      Filled(x, m', vals, |vals|) && Linked(x, m', s) && SameBut(m, m', x.fp - 32, 32)
  {
    var m' := Store(Store(m, x.fp - 32, true, s.regs[29]), x.fp - 24, true, s.regs[30]);
    StoreTwo(m, x.fp - 32, s.regs[29], s.regs[30]);
    assert SameBut(m, m', x.fp - 32, 16);
    FilledSame(x, m, m', vals, x.fp - 32, 16);
  }

  lemma FilledSame(x: Ctx, m: Mem, m': Mem, vals: seq<W.Value>, a: int, n: nat)
    requires Separate(x) && TypesMatch(x, vals) && Filled(x, m, vals, |vals|) && SameBut(m, m', a, n)
        && Apart(a, n, x.fp, x.extent)
    ensures Filled(x, m', vals, |vals|)
  {
    forall i | 0 <= i < |vals| ensures InMemory(m', SlotAt(x, i), vals[i]) {
      var at := SlotAt(x, i);
      assert Peek(m', at) == Peek(m, at);
      assert vals[i].wide ==> Peek(m', at + 4) == Peek(m, at + 4);
    }
  }

  /** The state before the call of setjmp. */
  ghost predicate AtCall(x: Ctx, fn: Fn, args: seq<W.Value>, s: State, t: State) {
    && t.pc == At(x, BackAt(fn) - 1) && t.sp == x.fp - 32 && t.regs == s.regs[0 := s.regs[BUFFER]]
    && TypesMatch(x, FirstVals(fn, args)) && Filled(x, t.mem, FirstVals(fn, args), |x.slots|)
    && Linked(x, t.mem, s) && Elsewhere(x, s.mem, t.mem) && StackKept(x, s.mem, t.mem)
  }

  lemma EntryMemory(x: Ctx, fn: Fn, args: seq<W.Value>, s: State, m: Mem, t: State)
    requires Separate(x) && TypesMatch(x, FirstVals(fn, args)) && Filled(x, m, FirstVals(fn, args), |x.slots|)
    requires SameBut(s.mem, m, x.fp, x.extent)
    requires t.mem == Store(Store(m, x.fp - 32, true, s.regs[29]), x.fp - 24, true, s.regs[30])
    requires t.pc == At(x, BackAt(fn) - 1) && t.sp == x.fp - 32 && t.regs == s.regs[0 := s.regs[BUFFER]]
    ensures AtCall(x, fn, args, s, t)
  {
    LinkStored(x, m, s, FirstVals(fn, args));
    hide Store, Linked, Filled;
    assert forall a :: Apart(a, 4, x.fp - SAVE_BYTES, SAVE_BYTES + x.extent) ==> Peek(m, a) == Peek(s.mem, a);
  }

  lemma ExecEntry(x: Ctx, fn: Fn, normal: int, args: seq<W.Value>, s: State) returns (t: State)
    requires Entered(x, fn, normal, args, s.(pc := x.p.base)) && s.pc == At(x, ENTRY)
    ensures Exec(EntryCode(fn), s) == Some(t) && AtCall(x, fn, args, s, t)
  {
    hide Separate, Next, Filled, SameBut, AtCall, FnCode, Store;
    var vals := FirstVals(fn, args);
    FrameAligned(x);
    FirstTypes(x, fn, normal, args, s.(pc := x.p.base));
    var sub, stores := [SubImm(31, 31, Frame(fn))], StoresCode(x.slots, |fn.params|, 0);
    NextSubSp(s, Frame(fn));
    var u := s.(sp := x.fp, pc := s.pc + 4);
    ExecOne(SubImm(31, 31, Frame(fn)), s);
    FilledNone(x, u.mem, vals);
    var v := ExecStores(x, u, vals, |fn.params|, 0);
    NextSaveLink(v, x.fp);
    var w := v.(mem := Store(Store(v.mem, x.fp - 32, true, v.regs[29]), x.fp - 24, true, v.regs[30]), sp := x.fp - 32,
        pc := v.pc + 4);
    NextMovReg(w, 0, BUFFER);
    t := w.(regs := w.regs[0 := s.regs[BUFFER]], pc := w.pc + 4);
    ExecTwoTo(Pair(true, false, 29, 30, 31, -4, PreIndex), MovReg(true, 0, BUFFER), v, w, t);
    ExecAppend(sub, stores, s);
    ExecAppend(sub + stores, SaveLinkCode(), s);
    EntryMemory(x, fn, args, s, v.mem, t);
  }

  lemma FilledNone(x: Ctx, m: Mem, vals: seq<W.Value>)
    requires |vals| == |x.slots|
    ensures Filled(x, m, vals, 0)
  {}

  lemma FrameAligned(x: Ctx)
    requires Separate(x)
    ensures x.fp % 4 == 0 && 32 <= x.fp && x.fp + x.extent < TWO64
  {}

  // The guard: setjmp, called from word `BackAt - 1`, returns to the next word; so does longjmp.

  /** The buffer leads back to the guard with the caller's registers. */
  ghost predicate Guarded(x: Ctx, fn: Fn, s: State, m: Mem) {
    && 0 <= At(x, BackAt(fn)) < TWO64
    && Holds(m, x.buf, s.regs[30 := At(x, BackAt(fn))], 12) && Load(m, x.buf + SP_AT, true) == x.fp - 32
  }

  /** The state before the body. */
  ghost predicate Ready(x: Ctx, fn: Fn, args: seq<W.Value>, s: State, t: State) {
    && t.pc == At(x, BodyAt(fn)) && t.sp == x.fp && (forall r :: 0 < r < 31 && r != 2 ==> t.regs[r] == s.regs[r])
    && TypesMatch(x, FirstVals(fn, args)) && Filled(x, t.mem, FirstVals(fn, args), |x.slots|)
    && Guarded(x, fn, s, t.mem) && Elsewhere(x, s.mem, t.mem) && StackKept(x, s.mem, t.mem)
  }

  lemma ReachesCall(p: Program, pos: int, dist: int, s: State) returns (t: State)
    requires CodeAt(p, pos, [Branch(true, dist)]) && s.pc == p.base + 4 * pos && 0 <= s.pc && s.pc + 4 < TWO64
    ensures 0 <= p.base + 4 * (pos + 1) < TWO64
    ensures t == s.(regs := s.regs[30 := p.base + 4 * (pos + 1)], pc := p.base + 4 * (pos + dist)) && Reaches(p, s, t)
  {
    StepAt(p, pos, Branch(true, dist), s);
    t := s.(regs := s.regs[30 := p.base + 4 * (pos + 1)], pc := p.base + 4 * (pos + dist));
    ModSmall(s.pc + 4);
    ReachesStep(p, s, t);
  }

  /** The test of what setjmp returned. */
  lemma RunResultTest(p: Program, pos: int, dist: int, s: State) returns (t: State)
    requires CodeAt(p, pos, [CmpImm(true, 0, 0), BranchCond(NE, dist)]) && s.pc == p.base + 4 * pos
    ensures Reaches(p, s, t) && t.regs == s.regs && t.mem == s.mem && t.sp == s.sp
    ensures t.pc == p.base + 4 * (pos + 1 + if s.regs[0] == 0 then 1 else dist)
  {
    hide CodeAt, Next;
    var cmp := CmpImm(true, 0, 0);
    assert [cmp, BranchCond(NE, dist)] == [cmp] + [BranchCond(NE, dist)];
    CodeAtSplit(p, pos, [cmp], [BranchCond(NE, dist)]);
    NextCompareZero(s, true, 0);
    CompareFlags(s.regs[0], 0, true);
    var u := SetFlags(s, AddSub(s.regs[0], 0, true, true)).(pc := s.pc + 4);
    ExecOne(cmp, s);
    ReachesExec(p, pos, [cmp], s);
    t := ReachesBranch(p, pos + 1, u, NE, dist);
    ReachesTrans(p, s, u, t);
  }

  lemma CodeFits(x: Ctx, fn: Fn, normal: int, args: seq<W.Value>, s: State)
    requires Entered(x, fn, normal, args, s)
    ensures Placed(x.p, fn, normal) && 0 <= x.p.base && At(x, BackAt(fn)) < TWO64
  {
    hide Separate, FnCode;
    WholePlaced(x.p, fn, normal);
  }

  /** setjmp's stores leave the frame alone. */
  lemma GuardMemory(x: Ctx, fn: Fn, args: seq<W.Value>, s: State, t: State, u: State, v: State)
    requires Separate(x) && AtCall(x, fn, args, s, t) && s.regs[BUFFER] == x.buf && 0 <= At(x, BackAt(fn)) < TWO64
    requires u == t.(regs := t.regs[30 := At(x, BackAt(fn))], pc := u.pc) && Jumped(u, v, x.buf)
    ensures Linked(x, v.mem, s) && Filled(x, v.mem, FirstVals(fn, args), |x.slots|)
    ensures Guarded(x, fn, s, v.mem) && Elsewhere(x, s.mem, v.mem) && StackKept(x, s.mem, v.mem)
  {
    FilledSame(x, t.mem, v.mem, FirstVals(fn, args), x.buf, 112);
    LoadSame(t.mem, v.mem, x.buf, 112, x.fp - 32);
    LoadSame(t.mem, v.mem, x.buf, 112, x.fp - 24);
    hide Filled, Load;
  }

  /** From the entry to the body. */
  lemma RunEntry(x: Ctx, fn: Fn, normal: int, args: seq<W.Value>, s: State) returns (t: State)
    requires Entered(x, fn, normal, args, s)
    ensures Reaches(x.p, s, t) && AtCall(x, fn, args, s, t)
  {
    hide CodeAt, StubCode, EntryCode, Separate, FnCode, AtCall, Exec;
    CodeFits(x, fn, normal, args, s);
    StubPlaced(x.p, FinalizeAt(fn));
    EntryUnbranched(fn);
    var u := ReachesJump(x.p, 0, s, ENTRY);
    t := ExecEntry(x, fn, normal, args, u);
    ReachesExec(x.p, ENTRY, EntryCode(fn), u);
    ReachesTrans(x.p, s, u, t);
    AtCallFrom(x, fn, args, s, u, t);
  }

  lemma AtCallFrom(x: Ctx, fn: Fn, args: seq<W.Value>, s: State, u: State, t: State)
    requires u == s.(pc := u.pc) && AtCall(x, fn, args, u, t)
    ensures AtCall(x, fn, args, s, t)
  {}

  lemma EntryUnbranched(fn: Fn)
    ensures forall i | i in EntryCode(fn) :: !IsBranch(i)
  {
    StoresLength(Slots(fn), |fn.params|, 0);
  }

  /** The state after setjmp has returned: as `Ready`, but for the link registers and sp. */
  ghost predicate AfterCall(x: Ctx, fn: Fn, args: seq<W.Value>, s: State, t: State) {
    && t.pc == At(x, BackAt(fn)) && t.sp == x.fp - 32 && t.regs[0] == 0
        && (forall r :: 0 < r < 29 && r != 2 ==> t.regs[r] == s.regs[r])
    && TypesMatch(x, FirstVals(fn, args)) && Filled(x, t.mem, FirstVals(fn, args), |x.slots|) && Linked(x, t.mem, s)
    && Guarded(x, fn, s, t.mem) && Elsewhere(x, s.mem, t.mem) && StackKept(x, s.mem, t.mem)
  }

  lemma AfterSetJmp(x: Ctx, fn: Fn, args: seq<W.Value>, s: State, t: State, c: State, u: State)
    requires Separate(x) && AtCall(x, fn, args, s, t) && s.regs[BUFFER] == x.buf && 0 <= At(x, BackAt(fn)) < TWO64
    requires c == t.(regs := t.regs[30 := At(x, BackAt(fn))], pc := c.pc) && Jumped(c, u, x.buf) && u.pc == c.regs[30]
    ensures AfterCall(x, fn, args, s, u)
  {
    hide Separate, Holds, Load, Filled, Elsewhere, StackKept, FirstVals, Guarded;
    GuardMemory(x, fn, args, s, t, c, u);
  }

  lemma EntryFacts(x: Ctx, fn: Fn, normal: int, args: seq<W.Value>, s: State)
    requires Entered(x, fn, normal, args, s)
    ensures CodeAt(x.p, SETJMP, SetJmpCode()) && CodeAt(x.p, BackAt(fn) - 1, [Branch(true, SETJMP - (BackAt(fn) - 1))])
    ensures Separate(x) && BufferFits(x.buf) && s.regs[BUFFER] == x.buf
    ensures 0 <= x.p.base + 4 * (BackAt(fn) - 1) && At(x, BackAt(fn)) == x.p.base + 4 * (BackAt(fn) - 1) + 4 < TWO64
  {
    hide CodeAt, StubCode, GuardCode, FnCode;
    CodeFits(x, fn, normal, args, s);
    StubPlaced(x.p, FinalizeAt(fn));
    GuardPlaced(x.p, fn);
    BufferPlace(x);
  }

  lemma AtCallFacts(x: Ctx, fn: Fn, args: seq<W.Value>, s: State, t: State)
    requires AtCall(x, fn, args, s, t)
    ensures t.pc == x.p.base + 4 * (BackAt(fn) - 1) && t.regs[0] == s.regs[BUFFER]
  {}

  lemma RunCall(x: Ctx, fn: Fn, normal: int, args: seq<W.Value>, s: State, t: State) returns (u: State)
    requires Entered(x, fn, normal, args, s) && AtCall(x, fn, args, s, t)
    ensures Reaches(x.p, t, u) && AfterCall(x, fn, args, s, u)
  {
    hide *;
    EntryFacts(x, fn, normal, args, s);
    AtCallFacts(x, fn, args, s, t);
    var c := ReachesCall(x.p, BackAt(fn) - 1, SETJMP - (BackAt(fn) - 1), t);
    u := RunSetJmp(x.p, c, x.buf);
    AfterSetJmp(x, fn, args, s, t, c, u);
    ReachesTrans(x.p, t, c, u);
  }

  lemma ExecRestoreLink(x: Ctx, s: State, t: State) returns (u: State)
    requires Separate(x) && Linked(x, t.mem, s) && t.sp == x.fp - 32
    ensures Exec(RestoreLinkCode(), t) == Some(u)
    ensures x.fp < TWO64 && u == t.(regs := t.regs[29 := s.regs[29]][30 := s.regs[30]], sp := x.fp, pc := t.pc + 4)
  {
    hide Load, Next;
    FrameAligned(x);
    NextRestoreLink(t, x.fp);
    u := t.(regs := t.regs[29 := s.regs[29]][30 := s.regs[30]], sp := x.fp, pc := t.pc + 4);
    ExecOne(Pair(true, true, 29, 30, 31, 4, PostIndex), t);
  }

  lemma RunGuard(x: Ctx, fn: Fn, normal: int, args: seq<W.Value>, s: State, t: State) returns (u: State)
    requires Entered(x, fn, normal, args, s) && AfterCall(x, fn, args, s, t)
    ensures Reaches(x.p, t, u) && Ready(x, fn, args, s, u)
  {
    hide CodeAt, StubCode, GuardCode, Separate, FnCode, Filled, Elsewhere, StackKept, FirstVals, Linked, Guarded, Exec;
    CodeFits(x, fn, normal, args, s);
    GuardPlaced(x.p, fn);
    var d := RunResultTest(x.p, BackAt(fn), RAISE - (BackAt(fn) + 1), t);
    u := ExecRestoreLink(x, s, d);
    ReachesExec(x.p, BackAt(fn) + 2, RestoreLinkCode(), d);
    ReachesTrans(x.p, t, d, u);
  }

  lemma BufferPlace(x: Ctx)
    requires Separate(x)
    ensures BufferFits(x.buf)
  {}

  // Finalize.

  /** Popping into a register, whatever x21 holds. */
  lemma ExecPopAny(s: State, wide: bool, a: int) returns (t: State)
    requires a == (s.regs[STACK] + (s.regs[DEPTH] as int - 8) % 0x1_0000_0000_0000_0000) % 0x1_0000_0000_0000_0000
        && Allowed(a, Size(wide))
    ensures Exec(PopCode(wide, 0), s) == Some(t)
    ensures t == s.(regs := s.regs[DEPTH := (s.regs[DEPTH] as int - 8) % 0x1_0000_0000_0000_0000][0 := Load(s.mem, a,
        wide)], pc := s.pc + 8)
  {
    var u := s.(regs := s.regs[DEPTH := (s.regs[DEPTH] as int - 8) % 0x1_0000_0000_0000_0000], pc := s.pc + 4);
    t := u.(regs := u.regs[0 := Load(s.mem, a, wide)], pc := u.pc + 4);
    ExecTwoTo(SubImm(DEPTH, DEPTH, 8), LdStReg(wide, true, 0, STACK, DEPTH), s, u, t);
  }

  /** The address that the result is popped from: below the stack when it is empty. */
  lemma PopAddress(wst: int, depth: nat, wide: bool)
    requires 8 <= wst && wst % 4 == 0 && wst + STACK_BYTES <= TWO64 && depth <= W.SLOTS
    ensures
      var a := wst + 8 * depth - 8;
      a == (wst + (8 * depth - 8) % 0x1_0000_0000_0000_0000) % 0x1_0000_0000_0000_0000 && Allowed(a, Size(wide))
  {}

  /** The state that a call leaves, the return code in the buffer and the result in x0. */
  ghost predicate Finished(x: Ctx, fn: Fn, t: State, u: State, depth: nat) {
    && u.pc == t.regs[30] && u.sp == x.fp + Frame(fn) && u.mem == t.mem
    && (forall r :: 22 <= r < 31 ==> u.regs[r] == t.regs[r])
    && (|fn.results| == 1 ==> u.regs[0] == Load(t.mem, x.wst + 8 * depth - 8, fn.results[0]))
  }

  lemma ExecResults(x: Ctx, fn: Fn, s: State, depth: nat) returns (t: State)
    requires Separate(x) && 8 <= x.wst && |fn.results| <= 1 && s.regs[STACK] == x.wst && s.regs[DEPTH] == 8 * depth
        && depth <= W.SLOTS
    ensures Exec(ResultsCode(fn.results, 0), s) == Some(t)
    ensures t == s.(regs := t.regs, pc := s.pc + 8 * |fn.results|)
        && (forall r :: 22 <= r < 31 ==> t.regs[r] == s.regs[r])
    ensures |fn.results| == 1 ==> t.regs[0] == Load(s.mem, x.wst + 8 * depth - 8, fn.results[0])
  {
    hide Load, Next, Allowed;
    if |fn.results| == 0 {
      t := s;
    } else {
      var w := fn.results[0];
      PopAddress(x.wst, depth, w);
      t := ExecPopAny(s, w, x.wst + 8 * depth - 8);
      assert ResultsCode(fn.results, 1) == [];
      assert ResultsCode(fn.results, 0) == PopCode(w, 0);
    }
  }

  lemma ResultsUnbranched(fn: Fn)
    requires |fn.results| <= 1
    ensures |ResultsCode(fn.results, 0)| == 2 * |fn.results| && forall i | i in ResultsCode(fn.results, 0) ::
        !IsBranch(i)
  {
    if |fn.results| == 1 {
      assert ResultsCode(fn.results, 1) == [];
    }
  }

  lemma FinalizeParts(p: Program, fn: Fn, pos: int)
    requires CodeAt(p, pos, FinalizeCode(fn)) && |fn.results| <= 1
    ensures
      var end := pos + 2 * |fn.results|;
      && CodeAt(p, pos, ResultsCode(fn.results, 0)) && (forall i | i in ResultsCode(fn.results, 0) :: !IsBranch(i))
      && CodeAt(p, end, [AddImm(31, 31, Frame(fn))]) && CodeAt(p, end + 1, [BranchReg(Ret, 30)])
  {
    hide CodeAt, ResultsCode, Frame;
    var a, b, c := ResultsCode(fn.results, 0), [AddImm(31, 31, Frame(fn))], [BranchReg(Ret, 30)];
    ResultsUnbranched(fn);
    assert FinalizeCode(fn) == a + b + c;
    CodeAtThree(p, pos, pos + |a|, pos + |a| + 1, a, b, c);
  }

  lemma ExecFrame(fn: Fn, s: State) returns (t: State)
    requires Frame(fn) < 4096 && s.sp + Frame(fn) < TWO64
    ensures Exec([AddImm(31, 31, Frame(fn))], s) == Some(t)
    ensures t == s.(sp := s.sp + Frame(fn), pc := s.pc + 4) && !IsBranch(AddImm(31, 31, Frame(fn)))
  {
    NextAddSp(s, Frame(fn));
    t := s.(sp := s.sp + Frame(fn), pc := s.pc + 4);
    ExecOne(AddImm(31, 31, Frame(fn)), s);
  }

  lemma RunFinalize(x: Ctx, fn: Fn, s: State, depth: nat) returns (t: State)
    requires Separate(x) && 8 <= x.wst && |fn.results| <= 1 && Frame(fn) < 4096 && x.fp + Frame(fn) < TWO64
    requires CodeAt(x.p, FinalizeAt(fn), FinalizeCode(fn)) && s.pc == At(x, FinalizeAt(fn))
    requires s.regs[STACK] == x.wst && s.regs[DEPTH] == 8 * depth && depth <= W.SLOTS && s.sp == x.fp
    ensures Reaches(x.p, s, t) && Finished(x, fn, s, t, depth)
  {
    hide Separate, FinalizeAt, CodeAt, FinalizeCode, ResultsCode, Frame, Exec, Reaches, Load, IsBranch;
    var pos := FinalizeAt(fn);
    FinalizeParts(x.p, fn, pos);
    var u := ExecResults(x, fn, s, depth);
    ReachesCode(x.p, pos, ResultsCode(fn.results, 0), s, u);
    var v := ExecFrame(fn, u);
    ReachesCode(x.p, pos + 2 * |fn.results|, [AddImm(31, 31, Frame(fn))], u, v);
    t := ReachesRegister(x.p, pos + 2 * |fn.results| + 1, Ret, 30, v);
    ReachesTrans(x.p, s, u, v);
    ReachesTrans(x.p, s, v, t);
  }

  // The run of a call.

  /** The body's variables before it runs. */
  function Start(fn: Fn, args: seq<W.Value>): W.St { W.St([], FirstVals(fn, args), false) }

  lemma ReadySees(x: Ctx, fn: Fn, normal: int, args: seq<W.Value>, s: State, t: State)
    requires Entered(x, fn, normal, args, s) && Ready(x, fn, args, s, t)
    ensures Sees(x, t, Start(fn, args)) && Separate(x)
  {
    hide Separate, FnCode, Guarded, Elsewhere, StackKept, FirstVals;
  }

  /** The body leaves the buffer alone. */
  lemma GuardKept(x: Ctx, fn: Fn, s: State, t: State, u: State)
    requires Separate(x) && Guarded(x, fn, s, t.mem) && Keeps(x, t, u)
    ensures Guarded(x, fn, s, u.mem)
  {
    hide SlotsApart;
    forall j | 0 <= j < 12 ensures Load(u.mem, x.buf + 8 * j, true) == Load(t.mem, x.buf + 8 * j, true) {
      assert Outside(x, x.buf + 8 * j) && Outside(x, x.buf + 8 * j + 4);
    }
    assert Outside(x, x.buf + SP_AT) && Outside(x, x.buf + SP_AT + 4);
  }

  lemma ElsewhereKept(x: Ctx, m: Mem, t: State, u: State)
    requires Separate(x) && Elsewhere(x, m, t.mem) && Keeps(x, t, u)
    ensures Elsewhere(x, m, u.mem)
  {
    hide SlotsApart;
    forall a | Apart(a, 4, x.buf, BUFFER_BYTES) && Apart(a, 4, x.wst, STACK_BYTES)
        && Apart(a, 4, x.fp - SAVE_BYTES, SAVE_BYTES + x.extent)
      ensures Peek(u.mem, a) == Peek(m, a)
    {
      assert Outside(x, a);
    }
  }

  /** The call has run: `u` is back at the caller, who finds its registers, its sp and its memory as they were. */
  ghost predicate Back(x: Ctx, s: State, u: State) {
    && u.pc == s.regs[30] && u.sp == s.sp && (forall r :: 22 <= r < 31 ==> u.regs[r] == s.regs[r])
        && Elsewhere(x, s.mem, u.mem)
  }

  /** What the return code, the result and the variables' slots tell of the body's outcome. */
  ghost predicate Tells(x: Ctx, fn: Fn, o: W.Outcome, u: State) {
    && (o.Trap? ==> Load(u.mem, x.buf, true) == 1)
    && (o.Done? ==>
      && Load(u.mem, x.buf, true) == 0
      && LocalsOk(x, u.mem, o.st.locals)
      && (|fn.results| == 1 && W.Ready(o.st, fn.results[0]) ==> u.regs[0] == W.Top(o.st).v.bits))
  }

  /** Storing the return code. */
  lemma CodeStored(x: Ctx, m0: Mem, m: Mem, m': Mem, code: U32)
    requires Separate(x) && Elsewhere(x, m0, m) && m' == Store(m, x.buf, true, code)
    ensures Load(m', x.buf, true) == code && SameBut(m, m', x.buf, 8) && Elsewhere(x, m0, m')
  {}

  lemma InMemorySame(m: Mem, m': Mem, a: int, n: nat, b: int, v: W.Value)
    requires InMemory(m, b, v) && SameBut(m, m', a, n) && Apart(b, 8, a, n)
    ensures InMemory(m', b, v)
  {
    assert Peek(m', b) == Peek(m, b) && Peek(m', b + 4) == Peek(m, b + 4);
  }

  lemma LocalsSame(x: Ctx, m: Mem, m': Mem, a: int, n: nat, locals: seq<W.Value>)
    requires Separate(x) && LocalsOk(x, m, locals) && SameBut(m, m', a, n) && Apart(a, n, x.fp, x.extent)
    ensures LocalsOk(x, m', locals)
  {
    forall i | 0 <= i < |locals| ensures InMemory(m', SlotAt(x, i), locals[i]) {
      var at := SlotAt(x, i);
      assert Peek(m', at) == Peek(m, at);
      assert locals[i].wide ==> Peek(m', at + 4) == Peek(m, at + 4);
    }
  }

  /** The state at `preparelongjmp`. */
  ghost predicate Trapped(x: Ctx, fn: Fn, s: State, t: State) {
    && t.pc == At(x, PREPARE) && t.regs[BUFFER] == x.buf && t.regs[30] == s.regs[30] && t.sp == x.fp
    && s.regs[BUFFER] == x.buf && s.regs[STACK] == x.wst && s.regs[DEPTH] == 0
    && Guarded(x, fn, s, t.mem) && Elsewhere(x, s.mem, t.mem)
  }

  /** The state back in the guard after longjmp. */
  ghost predicate Rewound(x: Ctx, fn: Fn, s: State, t: State) {
    && t.pc == At(x, BackAt(fn)) && t.regs[0] != 0 && t.regs[14] == s.regs[30] && t.regs[15] == x.fp
    && t.regs[BUFFER] == x.buf && t.regs[STACK] == x.wst && t.regs[DEPTH] == 0
    && (forall r :: 22 <= r < 30 ==> t.regs[r] == s.regs[r]) && Elsewhere(x, s.mem, t.mem)
  }

  lemma HoldsAgree(m: Mem, buf: int, regs: Regs, regs': Regs)
    requires Holds(m, buf, regs, 12) && Holds(m, buf, regs', 12)
    ensures forall r :: 19 <= r < 31 ==> regs[r] == regs'[r]
  {
    hide Load;
    forall r | 19 <= r < 31 ensures regs[r] == regs'[r] {
      var j := r - 19;
      assert Load(m, buf + 8 * j, true) == regs[19 + j] && Load(m, buf + 8 * j, true) == regs'[19 + j];
    }
  }

  lemma RewoundFrom(x: Ctx, fn: Fn, s: State, t: State, u: State, v: State)
    requires Trapped(x, fn, s, t) && Returned(u, v, x.buf) && v.pc == v.regs[30]
    requires u.mem == t.mem && u.regs[14] == t.regs[30] && u.regs[15] == t.sp
    ensures Rewound(x, fn, s, v)
  {
    hide Elsewhere, Load;
    HoldsAgree(t.mem, x.buf, v.regs, s.regs[30 := At(x, BackAt(fn))]);
  }

  /** A trap goes through preparelongjmp and longjmp back to the guard. */
  lemma RunRewind(x: Ctx, fn: Fn, s: State, t: State) returns (u: State)
    requires Trapped(x, fn, s, t) && BufferFits(x.buf)
    requires CodeAt(x.p, PREPARE, PrepareCode()) && CodeAt(x.p, LONGJMP, LongJmpCode())
    ensures Reaches(x.p, t, u) && Rewound(x, fn, s, u)
  {
    hide Guarded, Elsewhere, Returned, CodeAt, PrepareCode, LongJmpCode, Reaches, Rewound;
    var v := RunPrepare(x.p, t);
    u := RunLongJmp(x.p, v, x.buf);
    RewoundFrom(x, fn, s, t, v, u);
    ReachesTrans(x.p, t, v, u);
  }

  /** The guard sends it on to raiseException and finalize. */
  lemma RunException(x: Ctx, fn: Fn, s: State, t: State) returns (u: State)
    requires Rewound(x, fn, s, t) && Separate(x) && 8 <= x.wst && |fn.results| <= 1 && Frame(fn) < 4096
        && s.sp == x.fp + Frame(fn)
    requires CodeAt(x.p, BackAt(fn), [CmpImm(true, 0, 0), BranchCond(NE, RAISE - (BackAt(fn) + 1))])
    requires CodeAt(x.p, RAISE, RaiseCode(FinalizeAt(fn))) && CodeAt(x.p, FinalizeAt(fn), FinalizeCode(fn))
    ensures Reaches(x.p, t, u) && Back(x, s, u) && Load(u.mem, x.buf, true) == 1
  {
    hide Elsewhere, CodeAt, RaiseCode, FinalizeCode, FinalizeAt, BackAt, Reaches, Separate, Frame, Load, Store;
    BufferPlace(x);
    var v := RunResultTest(x.p, BackAt(fn), RAISE - (BackAt(fn) + 1), t);
    var w := RunRaise(x.p, v, x.buf, FinalizeAt(fn));
    u := RunFinalize(x, fn, w, 0);
    CodeStored(x, s.mem, t.mem, w.mem, 1);
    ReachesTrans(x.p, t, v, w);
    ReachesTrans(x.p, t, w, u);
  }

  lemma CallFacts(x: Ctx, fn: Fn, normal: int, args: seq<W.Value>, s: State)
    requires Entered(x, fn, normal, args, s)
    ensures Separate(x) && BufferFits(x.buf) && 8 <= x.wst && |fn.results| <= 1 && Frame(fn) < 4096
        && s.sp == x.fp + Frame(fn)
    ensures s.regs[BUFFER] == x.buf && s.regs[STACK] == x.wst && s.regs[DEPTH] == 0 && x.slots == Slots(fn)
    ensures CodeAt(x.p, PREPARE, PrepareCode()) && CodeAt(x.p, LONGJMP, LongJmpCode())
        && CodeAt(x.p, RAISE, RaiseCode(FinalizeAt(fn)))
    ensures CodeAt(x.p, BackAt(fn), [CmpImm(true, 0, 0), BranchCond(NE, RAISE - (BackAt(fn) + 1))])
    ensures CodeAt(x.p, BodyAt(fn), Compile(fn.body, BodyAt(fn), Slots(fn), normal))
    ensures CodeAt(x.p, FinalizeAt(fn) - 2, ReturnCode(0)) && CodeAt(x.p, FinalizeAt(fn), FinalizeCode(fn))
  {
    hide CodeAt, StubCode, GuardCode, FnCode, FinalizeCode, FinalizeAt, Separate, Compile, PrepareCode, LongJmpCode,
         RaiseCode, Frame;
    CodeFits(x, fn, normal, args, s);
    StubPlaced(x.p, FinalizeAt(fn));
    GuardPlaced(x.p, fn);
    BufferPlace(x);
    CodeAtSplit(x.p, FinalizeAt(fn) - 2, ReturnCode(0), FinalizeCode(fn));
  }

  /** The state after the body. */
  ghost predicate Completed(x: Ctx, fn: Fn, s: State, st: W.St, t: State) {
    && t.pc == At(x, FinalizeAt(fn) - 2) && t.regs[BUFFER] == x.buf && t.regs[STACK] == x.wst && Sees(x, t, st)
    && (forall r :: 22 <= r < 31 ==> t.regs[r] == s.regs[r]) && Elsewhere(x, s.mem, t.mem)
  }

  lemma TopInMemory(x: Ctx, t: State, st: W.St)
    requires Sees(x, t, st) && |st.stack| > 0
    ensures InMemory(t.mem, x.wst + 8 * |st.stack| - 8, W.Top(st).v)
  {
    var k := |st.stack| - 1;
    assert InMemory(t.mem, x.wst + 8 * k, Vals(st.stack)[k]);
  }

  lemma SeesFacts(x: Ctx, t: State, st: W.St)
    requires Sees(x, t, st)
    ensures t.sp == x.fp && t.regs[DEPTH] == 8 * |st.stack| && |st.stack| <= W.SLOTS && LocalsOk(x, t.mem, st.locals)
  {}

  lemma BufferApart(x: Ctx)
    requires Separate(x)
    ensures Apart(x.buf, 8, x.fp, x.extent) && Apart(x.buf, 8, x.wst, STACK_BYTES)
  {}

  /** The return code's store disturbs neither the variables nor the result. */
  lemma OutcomeKept(x: Ctx, s: State, t: State, u: State, st: W.St)
    requires Separate(x) && Sees(x, t, st) && Elsewhere(x, s.mem, t.mem) && u.mem == Store(t.mem, x.buf, true, 0)
    ensures LocalsOk(x, u.mem, st.locals) && Load(u.mem, x.buf, true) == 0 && Elsewhere(x, s.mem, u.mem)
    ensures |st.stack| > 0 ==> InMemory(u.mem, x.wst + 8 * |st.stack| - 8, W.Top(st).v)
  {
    hide Separate, Elsewhere, LocalsOk, Sees, Store, SameBut, Load;
    CodeStored(x, s.mem, t.mem, u.mem, 0);
    SeesFacts(x, t, st);
    BufferApart(x);
    LocalsSame(x, t.mem, u.mem, x.buf, 8, st.locals);
    if |st.stack| > 0 {
      TopInMemory(x, t, st);
      InMemorySame(t.mem, u.mem, x.buf, 8, x.wst + 8 * |st.stack| - 8, W.Top(st).v);
    }
  }

  lemma RunExit(x: Ctx, fn: Fn, s: State, st: W.St, t: State) returns (u: State)
    requires Completed(x, fn, s, st, t) && Separate(x) && 8 <= x.wst && |fn.results| <= 1 && Frame(fn) < 4096
        && s.sp == x.fp + Frame(fn)
    requires CodeAt(x.p, FinalizeAt(fn) - 2, ReturnCode(0)) && CodeAt(x.p, FinalizeAt(fn), FinalizeCode(fn))
    ensures Reaches(x.p, t, u) && Back(x, s, u) && Tells(x, fn, W.Done(st), u)
  {
    hide Elsewhere, CodeAt, ReturnCode, FinalizeCode, FinalizeAt, Reaches, Separate, Frame, Load, Store, Sees, LocalsOk;
    BufferPlace(x);
    SeesFacts(x, t, st);
    var v := ExecReturnCode(t, x.buf, 0);
    ReachesReturnCode(x.p, FinalizeAt(fn) - 2, t, v);
    OutcomeKept(x, s, t, v, st);
    u := RunFinalize(x, fn, v, |st.stack|);
    ReachesTrans(x.p, t, v, u);
  }

  lemma ReachesReturnCode(p: Program, pos: int, s: State, t: State)
    requires CodeAt(p, pos, ReturnCode(0)) && s.pc == p.base + 4 * pos && Exec(ReturnCode(0), s) == Some(t)
    ensures Reaches(p, s, t)
  {
    ReachesExec(p, pos, ReturnCode(0), s);
  }

  /** The body's run, from the guard to its last word or to `preparelongjmp`. */
  lemma RunBody(x: Ctx, fn: Fn, normal: int, args: seq<W.Value>, s: State, t: State) returns (u: State)
    requires Entered(x, fn, normal, args, s) && Ready(x, fn, args, s, t)
        && OwnDiv(fn.body, BodyAt(fn), Slots(fn), normal)
    requires Regular(W.Jit(fn.body, Start(fn, args)))
    ensures Reaches(x.p, t, u)
    ensures W.Jit(fn.body, Start(fn, args)).Done? ==> Completed(x, fn, s, W.Jit(fn.body, Start(fn, args)).st, u)
    ensures W.Jit(fn.body, Start(fn, args)).Trap? ==> Trapped(x, fn, s, u)
  {
    hide CodeAt, Entered, Separate, Compile, OwnDiv, Guarded, Elsewhere, FirstVals, Filled, TypesMatch, Sees, W.Jit,
         Length, Reaches;
    CallFacts(x, fn, normal, args, s);
    ReadySees(x, fn, normal, args, s, t);
    u := RunCode(x, fn.body, BodyAt(fn), FinalizeAt(fn) - 2, normal, t, Start(fn, args));
    GuardKept(x, fn, s, t, u);
    ElsewhereKept(x, s.mem, t, u);
  }

  /**
   A call of the code runs to its end. It comes back to its caller with sp, x22 to x30 and the rest of memory as they
   were; the return code says whether the body trapped; without a trap x0 has the result and the slots have the
   variables' final values.
   */
  lemma CallCorrect(x: Ctx, fn: Fn, normal: int, args: seq<W.Value>, s: State) returns (t: State)
    requires Entered(x, fn, normal, args, s) && OwnDiv(fn.body, BodyAt(fn), Slots(fn), normal)
    requires Regular(W.Jit(fn.body, Start(fn, args)))
    ensures Reaches(x.p, s, t) && Back(x, s, t) && Tells(x, fn, W.Jit(fn.body, Start(fn, args)), t)
  {
    hide *;
    var o := W.Jit(fn.body, Start(fn, args));
    CallFacts(x, fn, normal, args, s);
    var a := RunEntry(x, fn, normal, args, s);
    var b := RunCall(x, fn, normal, args, s, a);
    var c := RunGuard(x, fn, normal, args, s, b);
    var d := RunBody(x, fn, normal, args, s, c);
    ReachesTrans(x.p, s, a, b);
    ReachesTrans(x.p, s, b, c);
    ReachesTrans(x.p, s, c, d);
    RegularIs(o);
    if o.Done? {
      t := RunExit(x, fn, s, o.st, d);
      ReachesTrans(x.p, s, d, t);
    } else {
      var e := RunRewind(x, fn, s, d);
      t := RunException(x, fn, s, e);
      ReachesTrans(x.p, d, e, t);
      ReachesTrans(x.p, s, d, t);
      TrapTells(x, fn, o, t);
    }
  }

  lemma RegularIs(o: W.Outcome)
    requires Regular(o)
    ensures !o.Done? ==> o.Trap?
    ensures o.Done? ==> W.Done(o.st) == o
  {}

  lemma TrapTells(x: Ctx, fn: Fn, o: W.Outcome, u: State)
    requires o.Trap? && Load(u.mem, x.buf, true) == 1
    ensures Tells(x, fn, o, u)
  {}
}
