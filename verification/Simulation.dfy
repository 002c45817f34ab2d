/** The code of a function body does on the machine what `Wasm.Jit` says. */
module Simulation {
  import opened Numbers
  import opened Isa
  import opened Machine
  import opened Codegen
  import opened Layout
  import W = Wasm

  /** The program, the three data regions and the variables' slots; `extent` bytes from `fp` up hold the slots. */
  datatype Ctx = Ctx(p: Program, buf: int, wst: int, fp: int, slots: seq<Slot>, extent: nat)

  const STACK_BYTES := 8192
  const BUFFER_BYTES := 112
  const SAVE_BYTES := 32

  function SlotAt(x: Ctx, i: int): int
    requires 0 <= i < |x.slots|
  {
    x.fp + Effective(x.slots[i])
  }

  /** The regions are aligned, in the address space and disjoint; the slots are disjoint and in their region. */
  ghost predicate Separate(x: Ctx) {
    && x.buf % 4 == 0 && x.wst % 4 == 0 && x.fp % 4 == 0
    && 0 <= x.buf && x.buf + BUFFER_BYTES <= TWO64
    && 0 <= x.wst && x.wst + STACK_BYTES <= TWO64
    && SAVE_BYTES <= x.fp && x.fp + x.extent < TWO64
    && Apart(x.buf, BUFFER_BYTES, x.wst, STACK_BYTES)
    && Apart(x.buf, BUFFER_BYTES, x.fp - SAVE_BYTES, SAVE_BYTES + x.extent)
    && Apart(x.wst, STACK_BYTES, x.fp - SAVE_BYTES, SAVE_BYTES + x.extent)
    && SlotsApart(x.slots)
    && forall i :: 0 <= i < |x.slots| ==> Effective(x.slots[i]) + Size(x.slots[i].wide) <= x.extent
  }

  // Values in memory.

  ghost predicate InMemory(m: Mem, a: int, v: W.Value) { Load(m, a, v.wide) == v.bits }

  ghost predicate StackOk(x: Ctx, m: Mem, stack: seq<W.Value>) {
    forall k :: 0 <= k < |stack| ==> InMemory(m, x.wst + 8 * k, stack[k])
  }

  ghost predicate LocalsOk(x: Ctx, m: Mem, locals: seq<W.Value>) {
    && |locals| == |x.slots|
    && forall i :: 0 <= i < |locals| ==> locals[i].wide == x.slots[i].wide && InMemory(m, SlotAt(x, i), locals[i])
  }

  /** What holds between the instructions of the body. */
  ghost predicate Inv(x: Ctx, s: State, stack: seq<W.Value>, locals: seq<W.Value>) {
    && s.regs[BUFFER] == x.buf && s.regs[STACK] == x.wst && s.regs[DEPTH] == 8 * |stack| && s.sp == x.fp
    && |stack| <= W.SLOTS
    && StackOk(x, s.mem, stack)
    && LocalsOk(x, s.mem, locals)
  }

  /** The registers the body uses. */
  predicate Scratch(r: int) { r == 0 || r == 3 || r == 4 || r == 5 || r == 11 || r == 12 || r == DEPTH }

  /** The cell at `a` is neither in the operand stack nor among the slots. */
  predicate Outside(x: Ctx, a: int) { Apart(a, 4, x.wst, STACK_BYTES) && Apart(a, 4, x.fp, x.extent) }

  /** What the body leaves alone: sp, the other registers and the memory outside its two regions. */
  ghost predicate Keeps(x: Ctx, s: State, t: State) {
    && t.sp == s.sp
    && (forall r :: 0 <= r < 31 && !Scratch(r) ==> t.regs[r] == s.regs[r])
    && (forall a :: Outside(x, a) ==> Peek(t.mem, a) == Peek(s.mem, a))
  }

  lemma LoadAfterStore(m: Mem, a: int, wide: bool, v: U64, b: int, wide': bool)
    requires Apart(a, Size(wide), b, Size(wide'))
    ensures Load(Store(m, a, wide, v), b, wide') == Load(m, b, wide')
  {}

  lemma LoadStored(m: Mem, a: int, wide: bool, v: U64)
    ensures Load(Store(m, a, wide, v), a, wide) == Part(v, wide)
    ensures Load(Store(m, a, wide, v), a, false) == v % 0x1_0000_0000
  {}

  /** Storing in a free slot of the operand stack pushes a value and disturbs nothing else. */
  lemma StorePush(x: Ctx, m: Mem, stack: seq<W.Value>, locals: seq<W.Value>, wide: bool, bits: U64, v: W.Value)
    requires Separate(x) && |stack| < W.SLOTS && StackOk(x, m, stack) && LocalsOk(x, m, locals)
    requires v.bits == Part(bits, v.wide) && (v.wide ==> wide)
    ensures
      var m' := Store(m, x.wst + 8 * |stack|, wide, bits);
      && StackOk(x, m', stack + [v]) && LocalsOk(x, m', locals)
      && forall a :: Outside(x, a) ==> Peek(m', a) == Peek(m, a)
  {
    var at := x.wst + 8 * |stack|;
    var m' := Store(m, at, wide, bits);
    LoadStored(m, at, wide, bits);
    forall k | 0 <= k < |stack| ensures InMemory(m', x.wst + 8 * k, stack[k]) {
      LoadAfterStore(m, at, wide, bits, x.wst + 8 * k, stack[k].wide);
    }
    forall i | 0 <= i < |locals| ensures InMemory(m', SlotAt(x, i), locals[i]) {
      LoadAfterStore(m, at, wide, bits, SlotAt(x, i), locals[i].wide);
    }
  }

  /** Storing in a variable's slot changes that variable and nothing else. */
  lemma StoreLocal(x: Ctx, m: Mem, stack: seq<W.Value>, locals: seq<W.Value>, i: nat, bits: U64, v: W.Value)
    requires Separate(x) && |stack| <= W.SLOTS && StackOk(x, m, stack) && LocalsOk(x, m, locals)
    requires i < |locals| && v.wide == locals[i].wide && v.bits == Part(bits, v.wide)
    ensures
      var m' := Store(m, SlotAt(x, i), v.wide, bits);
      && StackOk(x, m', stack) && LocalsOk(x, m', locals[i := v])
      && forall a :: Outside(x, a) ==> Peek(m', a) == Peek(m, a)
  {
    var at := SlotAt(x, i);
    var m' := Store(m, at, v.wide, bits);
    LoadStored(m, at, v.wide, bits);
    forall k | 0 <= k < |stack| ensures InMemory(m', x.wst + 8 * k, stack[k]) {
      LoadAfterStore(m, at, v.wide, bits, x.wst + 8 * k, stack[k].wide);
    }
    forall j | 0 <= j < |locals| ensures InMemory(m', SlotAt(x, j), locals[i := v][j]) {
      if j != i {
        LoadAfterStore(m, at, v.wide, bits, SlotAt(x, j), locals[j].wide);
      }
    }
  }

  // Pushing and popping: first what the words do, then what that means.

  lemma ModSmall(a: int)
    requires 0 <= a < TWO64
    ensures a % 0x1_0000_0000_0000_0000 == a
  {}

  lemma NextAddImm(s: State, r: nat, imm: nat)
    requires r < 31 && imm < 4096 && s.regs[r] + imm < TWO64
    ensures 0 <= s.regs[r] + imm < TWO64
    ensures Next(AddImm(r, r, imm), s) == Some(s.(regs := s.regs[r := s.regs[r] + imm], pc := s.pc + 4))
  {}

  lemma NextSubImm(s: State, r: nat, imm: nat)
    requires r < 31 && imm < 4096 && s.regs[r] >= imm
    ensures 0 <= s.regs[r] - imm < TWO64
    ensures Next(SubImm(r, r, imm), s) == Some(s.(regs := s.regs[r := s.regs[r] - imm], pc := s.pc + 4))
  {}

  lemma NextIndexed(s: State, wide: bool, load: bool, rt: nat, rn: nat, rm: nat, a: int)
    requires rt < 31 && rn < 31 && rm < 31 && Allowed(a, Size(wide)) && a == s.regs[rn] as int + s.regs[rm]
    ensures Next(LdStReg(wide, load, rt, rn, rm), s) ==
            Some(if load then s.(regs := s.regs[rt := Load(s.mem, a, wide)], pc := s.pc + 4)
                 else s.(mem := Store(s.mem, a, wide, s.regs[rt]), pc := s.pc + 4))
  {
    ModSmall(a);
  }

  /** A scaled access relative to sp. */
  lemma NextFrame(s: State, wide: bool, load: bool, rt: nat, scaled: nat, a: int)
    requires rt < 31 && Allowed(a, Size(wide)) && a == s.sp + (if wide then scaled * 8 else scaled * 4)
    ensures Next(LdStImm(wide, load, rt, 31, scaled, UnsignedOffset), s) ==
            Some(if load then s.(regs := s.regs[rt := Load(s.mem, a, wide)], pc := s.pc + 4)
                 else s.(mem := Store(s.mem, a, wide, s.regs[rt]), pc := s.pc + 4))
  {
    ModSmall(a);
  }

  /** The operand stack registers: `depth` slots are in use from `wst` up. */
  predicate StackRegs(s: State, wst: int, depth: nat) {
    s.regs[STACK] == wst && s.regs[DEPTH] == 8 * depth && wst % 4 == 0 && wst + STACK_BYTES <= TWO64 && depth <= W.SLOTS
  }

  lemma StackAllowed(wst: int, depth: nat, wide: bool)
    requires 0 <= wst && wst % 4 == 0 && wst + STACK_BYTES <= TWO64 && depth < W.SLOTS
    ensures Allowed(wst + 8 * depth, Size(wide))
  {}

  lemma PushWords(s: State, wide: bool, r: nat, a: int, p: U64)
    requires r < 31 && Allowed(a, Size(wide)) && a == s.regs[STACK] as int + s.regs[DEPTH]
        && p == s.regs[DEPTH] as int + 8
    ensures Exec(PushCode(wide, r), s) ==
        Some(s.(mem := Store(s.mem, a, wide, s.regs[r]), regs := s.regs[DEPTH := p], pc := s.pc + 8))
  {
    hide Next, Exec, Store;
    var t := s.(mem := Store(s.mem, a, wide, s.regs[r]), pc := s.pc + 4);
    var u := t.(regs := t.regs[DEPTH := p], pc := t.pc + 4);
    NextIndexed(s, wide, false, r, STACK, DEPTH, a);
    NextAddImm(t, DEPTH, 8);
    ExecTwoTo(LdStReg(wide, false, r, STACK, DEPTH), AddImm(DEPTH, DEPTH, 8), s, t, u);
  }

  lemma PushEffect(s: State, wide: bool, r: nat, wst: int, depth: nat)
    requires r < 31 && StackRegs(s, wst, depth) && depth < W.SLOTS
    ensures Exec(PushCode(wide, r), s) ==
            Some(s.(mem := Store(s.mem, wst + 8 * depth, wide, s.regs[r]), regs := s.regs[DEPTH := 8 * depth + 8],
                pc := s.pc + 8))
  {
    hide Exec, Store, Allowed;
    StackAllowed(wst, depth, wide);
    PushWords(s, wide, r, wst + 8 * depth, 8 * depth + 8);
  }

  lemma PopWords(s: State, wide: bool, r: nat, a: int, p: U64)
    requires r < 31 && r != STACK && r != DEPTH && Allowed(a, Size(wide))
    requires p == s.regs[DEPTH] as int - 8 && a == s.regs[STACK] as int + p
    ensures Exec(PopCode(wide, r), s) == Some(s.(regs := s.regs[DEPTH := p][r := Load(s.mem, a, wide)], pc := s.pc + 8))
  {
    hide Next, Exec, Load;
    var t := s.(regs := s.regs[DEPTH := p], pc := s.pc + 4);
    var u := t.(regs := t.regs[r := Load(s.mem, a, wide)], pc := t.pc + 4);
    NextSubImm(s, DEPTH, 8);
    NextIndexed(t, wide, true, r, STACK, DEPTH, a);
    ExecTwoTo(SubImm(DEPTH, DEPTH, 8), LdStReg(wide, true, r, STACK, DEPTH), s, t, u);
  }

  lemma PopEffect(s: State, wide: bool, r: nat, wst: int, depth: nat)
    requires r < 31 && r != STACK && r != DEPTH && depth > 0 && StackRegs(s, wst, depth)
    ensures Exec(PopCode(wide, r), s) ==
            Some(s.(regs := s.regs[DEPTH := 8 * depth - 8][r := Load(s.mem, wst + 8 * depth - 8, wide)], pc := s.pc
                + 8))
  {
    hide Exec, Load, Allowed;
    StackAllowed(wst, depth - 1, wide);
    PopWords(s, wide, r, wst + 8 * depth - 8, 8 * depth - 8);
  }

  lemma TeeEffect(s: State, wide: bool, r: nat, wst: int, depth: nat)
    requires r < 31 && r != STACK && r != DEPTH && depth > 0 && StackRegs(s, wst, depth)
    ensures Exec(TeeCode(wide, r), s) ==
        Some(s.(regs := s.regs[r := Load(s.mem, wst + 8 * depth - 8, wide)], pc := s.pc + 12))
  {
    hide Next, Exec, Load, PopCode, AddImm;
    var v := Load(s.mem, wst + 8 * depth - 8, wide);
    var u := s.(regs := s.regs[DEPTH := 8 * depth - 8][r := v], pc := s.pc + 8);
    PopEffect(s, wide, r, wst, depth);
    NextAddImm(u, DEPTH, 8);
    assert u.regs[DEPTH := 8 * depth] == s.regs[r := v];
    ExecThen(PopCode(wide, r), AddImm(DEPTH, DEPTH, 8), s, u);
  }

  lemma LocalEffect(s: State, slot: Slot, load: bool, a: int)
    requires a == s.sp + Effective(slot) && Allowed(a, Size(slot.wide))
    ensures Exec([Access(slot.wide, load, 11, 31, slot.off)], s) ==
            Some(if load then s.(regs := s.regs[11 := Load(s.mem, a, slot.wide)], pc := s.pc + 4)
                 else s.(mem := Store(s.mem, a, slot.wide, s.regs[11]), pc := s.pc + 4))
  {
    NextFrame(s, slot.wide, load, 11, if slot.wide then slot.off / 8 else slot.off / 4, a);
    ExecOne(Access(slot.wide, load, 11, 31, slot.off), s);
  }

  lemma ExecPush(x: Ctx, s: State, stack: seq<W.Value>, locals: seq<W.Value>, wide: bool, r: nat, v: W.Value)
      returns (t: State)
    requires Separate(x) && Inv(x, s, stack, locals) && |stack| < W.SLOTS && r < 31
    requires v.bits == Part(s.regs[r], v.wide) && (v.wide ==> wide)
    ensures Exec(PushCode(wide, r), s) == Some(t) && t.pc == s.pc + 8
    ensures t.mem == Store(s.mem, x.wst + 8 * |stack|, wide, s.regs[r])
    ensures Inv(x, t, stack + [v], locals) && Keeps(x, s, t)
  {
    PushEffect(s, wide, r, x.wst, |stack|);
    StorePush(x, s.mem, stack, locals, wide, s.regs[r], v);
    t := Exec(PushCode(wide, r), s).value;
  }

  lemma ExecPop(x: Ctx, s: State, stack: seq<W.Value>, locals: seq<W.Value>, wide: bool, r: nat) returns (t: State)
    requires Separate(x) && Inv(x, s, stack, locals) && |stack| > 0 && stack[|stack| - 1].wide == wide
    requires r < 31 && Scratch(r) && r != DEPTH
    ensures Exec(PopCode(wide, r), s) == Some(t)
    ensures t == s.(regs := s.regs[DEPTH := 8 * |stack| - 8][r := stack[|stack| - 1].bits], pc := s.pc + 8)
    ensures Inv(x, t, stack[..|stack| - 1], locals) && Keeps(x, s, t)
  {
    assert InMemory(s.mem, x.wst + 8 * |stack| - 8, stack[|stack| - 1]);
    PopEffect(s, wide, r, x.wst, |stack|);
    t := Exec(PopCode(wide, r), s).value;
  }

  /** Reading the top of the stack without popping it. */
  lemma ExecTee(x: Ctx, s: State, stack: seq<W.Value>, locals: seq<W.Value>, wide: bool, r: nat) returns (t: State)
    requires Separate(x) && Inv(x, s, stack, locals) && |stack| > 0 && stack[|stack| - 1].wide == wide
    requires r < 31 && Scratch(r) && r != DEPTH
    ensures Exec(TeeCode(wide, r), s) == Some(t)
    ensures t == s.(regs := s.regs[r := stack[|stack| - 1].bits], pc := s.pc + 12)
    ensures Inv(x, t, stack, locals) && Keeps(x, s, t)
  {
    assert InMemory(s.mem, x.wst + 8 * |stack| - 8, stack[|stack| - 1]);
    TeeEffect(s, wide, r, x.wst, |stack|);
    t := Exec(TeeCode(wide, r), s).value;
  }

  lemma Chain(a: seq<Instr>, b: seq<Instr>, s: State, t: State, u: State)
    requires Exec(a, s) == Some(t) && Exec(b, t) == Some(u)
    ensures Exec(a + b, s) == Some(u)
  {
    ExecAppend(a, b, s);
  }

  lemma ScaledAligned(fp: int, off: nat)
    requires fp % 4 == 0
    ensures (fp + off / 8 * 8) % 4 == 0 && (fp + off / 4 * 4) % 4 == 0
  {
    var k, q, r := fp / 4, off / 8, off / 4;
    assert fp + q * 8 == 4 * (k + 2 * q);
    assert fp + r * 4 == 4 * (k + r);
  }

  lemma SlotAllowed(x: Ctx, i: nat)
    requires Separate(x) && i < |x.slots|
    ensures Allowed(SlotAt(x, i), Size(x.slots[i].wide))
  {
    ScaledAligned(x.fp, x.slots[i].off);
  }

  lemma ExecLoadLocal(x: Ctx, s: State, stack: seq<W.Value>, locals: seq<W.Value>, i: nat) returns (t: State)
    requires Separate(x) && Inv(x, s, stack, locals) && i < |locals|
    ensures Exec([Access(x.slots[i].wide, true, 11, 31, x.slots[i].off)], s) == Some(t)
    ensures t == s.(regs := s.regs[11 := locals[i].bits], pc := s.pc + 4)
    ensures Inv(x, t, stack, locals) && Keeps(x, s, t)
  {
    assert InMemory(s.mem, SlotAt(x, i), locals[i]);
    SlotAllowed(x, i);
    LocalEffect(s, x.slots[i], true, SlotAt(x, i));
    t := s.(regs := s.regs[11 := locals[i].bits], pc := s.pc + 4);
  }

  lemma ExecStoreLocal(x: Ctx, s: State, stack: seq<W.Value>, locals: seq<W.Value>, i: nat, v: W.Value)
      returns (t: State)
    requires Separate(x) && Inv(x, s, stack, locals) && i < |locals| && v.wide == locals[i].wide && s.regs[11] == v.bits
    ensures Exec([Access(x.slots[i].wide, false, 11, 31, x.slots[i].off)], s) == Some(t)
    ensures t.pc == s.pc + 4 && Inv(x, t, stack, locals[i := v]) && Keeps(x, s, t)
    ensures t.mem == Store(s.mem, SlotAt(x, i), v.wide, v.bits)
  {
    SlotAllowed(x, i);
    LocalEffect(s, x.slots[i], false, SlotAt(x, i));
    StoreLocal(x, s.mem, stack, locals, i, v.bits, v);
    t := s.(mem := Store(s.mem, SlotAt(x, i), v.wide, v.bits), pc := s.pc + 4);
  }

  lemma KeepsTrans(x: Ctx, s: State, t: State, u: State)
    requires Keeps(x, s, t) && Keeps(x, t, u)
    ensures Keeps(x, s, u)
  {}

  // Constants.

  lemma HalvesNarrow(v: int)
    ensures Half(v, 1) * 0x1_0000 + Half(v, 0) == v % 0x1_0000_0000
  {}

  lemma HalvesWide(v: int)
    ensures Half(v, 3) * 0x1_0000_0000_0000 + Half(v, 2) * 0x1_0000_0000 + Half(v, 1) * 0x1_0000 + Half(v, 0) ==
        v % 0x1_0000_0000_0000_0000
  {
    HalvesNarrow(v);
    HalvesNarrow(v / 0x1_0000_0000);
    assert v / 0x1_0000_0000 / 0x1_0000 == v / 0x1_0000_0000_0000;
    assert v % 0x1_0000_0000_0000_0000 == v / 0x1_0000_0000 % 0x1_0000_0000 * 0x1_0000_0000 + v % 0x1_0000_0000;
  }

  function Wrote(s: State, rd: nat, v: U64): State
    requires rd < 31
  {
    s.(regs := s.regs[rd := v], pc := s.pc + 4)
  }

  lemma NextMov(wide: bool, kind: MovKind, rd: nat, imm: nat, hw: nat, s: State, v: U64)
    requires rd < 31 && imm < 0x1_0000 && hw < (if wide then 4 else 2) && !kind.MovN?
    requires v == Insert(if kind.MovZ? then 0 else Part(s.regs[rd], wide), imm, hw)
    ensures Next(MovWide(wide, kind, rd, imm, hw), s) == Some(Wrote(s, rd, v))
  {}

  /** Two instructions that write the same register. */
  lemma TwoWrites(i: Instr, j: Instr, rd: nat, a: U64, b: U64, s: State)
    requires rd < 31 && Next(i, s) == Some(Wrote(s, rd, a))
        && Next(j, Wrote(s, rd, a)) == Some(Wrote(Wrote(s, rd, a), rd, b))
    ensures Exec([i, j], s) == Some(s.(regs := s.regs[rd := b], pc := s.pc + 8))
  {
    hide Next, Exec;
    assert s.regs[rd := a][rd := b] == s.regs[rd := b];
    ExecTwo(i, j, s);
  }

  lemma InsertHalf(h0: nat, h1: nat)
    requires h0 < 0x1_0000 && h1 < 0x1_0000
    ensures Insert(0, h0, 0) == h0 && Insert(h0, h1, 1) == h1 * 0x1_0000 + h0
  {
    assert h0 / 0x1_0000_0000 == 0 && h0 % 0x1_0000 == h0;
  }

  lemma InsertHigh(lo: U64, h2: nat, h3: nat)
    requires lo < TWO32 && h2 < 0x1_0000 && h3 < 0x1_0000
    ensures Insert(lo, h2, 2) == h2 * 0x1_0000_0000 + lo
    ensures h2 * 0x1_0000_0000 + lo < TWO64
        && Insert(h2 * 0x1_0000_0000 + lo, h3, 3) == h3 * 0x1_0000_0000_0000 + h2 * 0x1_0000_0000 + lo
  {}

  lemma PartSmall(v: U64, wide: bool)
    requires v < TWO32
    ensures Part(v, wide) == v
  {}

  lemma MovLow(wide: bool, rd: nat, h0: nat, h1: nat, lo: U64, s: State)
    requires rd < 31 && h0 < 0x1_0000 && h1 < 0x1_0000 && lo == h1 * 0x1_0000 + h0
    ensures Exec([MovWide(wide, MovZ, rd, h0, 0), MovWide(wide, MovK, rd, h1, 1)], s) ==
            Some(s.(regs := s.regs[rd := lo], pc := s.pc + 8))
  {
    InsertHalf(h0, h1);
    NextMov(wide, MovZ, rd, h0, 0, s, h0);
    PartSmall(h0, wide);
    NextMov(wide, MovK, rd, h1, 1, Wrote(s, rd, h0), lo);
    TwoWrites(MovWide(wide, MovZ, rd, h0, 0), MovWide(wide, MovK, rd, h1, 1), rd, h0, lo, s);
  }

  lemma MovHigh(rd: nat, lo: U64, h2: nat, h3: nat, all: U64, s: State)
    requires rd < 31 && h2 < 0x1_0000 && h3 < 0x1_0000 && lo < TWO32 && s.regs[rd] == lo
    requires all == h3 * 0x1_0000_0000_0000 + h2 * 0x1_0000_0000 + lo
    ensures Exec([MovWide(true, MovK, rd, h2, 2), MovWide(true, MovK, rd, h3, 3)], s) ==
            Some(s.(regs := s.regs[rd := all], pc := s.pc + 8))
  {
    InsertHigh(lo, h2, h3);
    var mid: U64 := h2 * 0x1_0000_0000 + lo;
    NextMov(true, MovK, rd, h2, 2, s, mid);
    NextMov(true, MovK, rd, h3, 3, Wrote(s, rd, mid), all);
    TwoWrites(MovWide(true, MovK, rd, h2, 2), MovWide(true, MovK, rd, h3, 3), rd, mid, all, s);
  }

  /** Loading a constant leaves exactly its bit pattern, with the upper half zero for a W register. */
  lemma ExecMov(wide: bool, rd: nat, v: int, s: State) returns (t: State)
    requires rd < 31
    ensures Exec(MovCode(wide, rd, v), s) == Some(t)
    ensures t == s.(regs := s.regs[rd := Wrap(v, wide)], pc := s.pc + 4 * MovLength(wide))
  {
    t := s.(regs := s.regs[rd := Wrap(v, wide)], pc := s.pc + 4 * MovLength(wide));
    var h0, h1 := Half(v, 0), Half(v, 1);
    if wide {
      HalvesWide(v);
      var lo: U64 := h1 * 0x1_0000 + h0;
      var u := s.(regs := s.regs[rd := lo], pc := s.pc + 8);
      MovLow(true, rd, h0, h1, lo, s);
      MovHigh(rd, lo, Half(v, 2), Half(v, 3), v % 0x1_0000_0000_0000_0000, u);
      assert u.regs[rd := v % 0x1_0000_0000_0000_0000] == t.regs;
      Chain([MovWide(true, MovZ, rd, h0, 0), MovWide(true, MovK, rd, h1, 1)],
            [MovWide(true, MovK, rd, Half(v, 2), 2), MovWide(true, MovK, rd, Half(v, 3), 3)], s, u, t);
    } else {
      HalvesNarrow(v);
      MovLow(false, rd, h0, h1, v % 0x1_0000_0000, s);
    }
  }

  // Comparison.

  /** The flags that a comparison of `a` and `b` sets. */
  lemma CompareFlags(a: int, b: int, wide: bool)
    requires 0 <= a < Span(wide) && 0 <= b < Span(wide)
    ensures
      var r := AddSub(a, b, true, wide);
      && (r.z <==> a == b) && (r.c <==> a >= b) && (r.n != r.v <==> SInt(a, wide) < SInt(b, wide))
  {}

  /** The condition chosen for a comparison holds after the compare instruction exactly when the relation does. */
  lemma CompareCorrect(s: State, cmp: W.Cmp, wide: bool, a: int, b: int)
    requires 0 <= a < Span(wide) && 0 <= b < Span(wide)
    ensures CondHolds(CondOf(cmp), SetFlags(s, AddSub(a, b, true, wide))) <==> W.Holds(cmp, wide, a, b)
  {
    CompareFlags(a, b, wide);
  }

  /** A change of scratch registers and flags only. */
  lemma InvScratch(x: Ctx, s: State, t: State, stack: seq<W.Value>, locals: seq<W.Value>)
    requires Inv(x, s, stack, locals) && t.sp == s.sp && t.mem == s.mem
    requires forall r :: 0 <= r < 31 && (!Scratch(r) || r == DEPTH) ==> t.regs[r] == s.regs[r]
    ensures Inv(x, t, stack, locals) && Keeps(x, s, t)
  {}

  lemma ExecSelect(s: State, wide: bool, cmp: W.Cmp, a: int, b: int) returns (t: State)
    requires 0 <= a < Span(wide) && 0 <= b < Span(wide)
    requires s.regs[11] == a && s.regs[12] == b && s.regs[3] == 1 && s.regs[4] == 0
    ensures Exec([CmpReg(wide, 11, 12), Csel(true, 0, 3, 4, CondOf(cmp))], s) == Some(t)
    ensures t.regs == s.regs[0 := W.Flag(W.Holds(cmp, wide, a, b)).bits] && t.mem == s.mem && t.sp == s.sp
        && t.pc == s.pc + 8
  {
    var u := SetFlags(s, AddSub(a, b, true, wide)).(pc := s.pc + 4);
    CompareCorrect(s, cmp, wide, a, b);
    NextCompare(s, wide, 11, 12);
    t := u.(regs := u.regs[0 := W.Flag(W.Holds(cmp, wide, a, b)).bits], pc := u.pc + 4);
    NextSelect(u, CondOf(cmp));
    ExecTwoTo(CmpReg(wide, 11, 12), Csel(true, 0, 3, 4, CondOf(cmp)), s, u, t);
  }

  lemma PartFits(v: U64, wide: bool)
    requires v < Span(wide)
    ensures Part(v, wide) == v
  {}

  lemma NextCompare(s: State, wide: bool, rn: nat, rm: nat)
    requires rn < 31 && rm < 31 && s.regs[rn] < Span(wide) && s.regs[rm] < Span(wide)
    ensures Next(CmpReg(wide, rn, rm), s) ==
        Some(SetFlags(s, AddSub(s.regs[rn], s.regs[rm], true, wide)).(pc := s.pc + 4))
  {
    PartFits(s.regs[rn], wide);
    PartFits(s.regs[rm], wide);
  }

  lemma NextCompareZero(s: State, wide: bool, rn: nat)
    requires rn < 31 && s.regs[rn] < Span(wide)
    ensures Next(CmpImm(wide, rn, 0), s) == Some(SetFlags(s, AddSub(s.regs[rn], 0, true, wide)).(pc := s.pc + 4))
  {
    PartFits(s.regs[rn], wide);
    PartFits(0, wide);
  }

  lemma NextSelect(s: State, cond: nat)
    requires s.regs[3] == 1 && s.regs[4] == 0
    ensures Next(Csel(true, 0, 3, 4, cond), s) ==
        Some(s.(regs := s.regs[0 := if CondHolds(cond, s) then 1 else 0], pc := s.pc + 4))
  {}

  lemma ExecOneZero(s: State)
    ensures Exec([Movz(true, 3, 1), Movz(true, 4, 0)], s) == Some(s.(regs := s.regs[3 := 1][4 := 0], pc := s.pc + 8))
  {
    NextMov(true, MovZ, 3, 1, 0, s, 1);
    NextMov(true, MovZ, 4, 0, 0, Wrote(s, 3, 1), 0);
    ExecTwoTo(Movz(true, 3, 1), Movz(true, 4, 0), s, Wrote(s, 3, 1), Wrote(Wrote(s, 3, 1), 4, 0));
  }

  /** Popping the two operands of an instruction into `rb` (the top) and `ra`. */
  lemma ExecOperands(x: Ctx, s: State, stack: seq<W.Value>, locals: seq<W.Value>, wide: bool, rb: nat, ra: nat)
      returns (t: State)
    requires Separate(x) && Inv(x, s, stack, locals) && |stack| >= 2
    requires stack[|stack| - 1].wide == wide && stack[|stack| - 2].wide == wide
    requires (rb == 11 && ra == 12) || (rb == 12 && ra == 11)
    ensures Exec(PopCode(wide, rb) + PopCode(wide, ra), s) == Some(t)
    ensures t.pc == s.pc + 16 && t.regs[rb] == stack[|stack| - 1].bits && t.regs[ra] == stack[|stack| - 2].bits
    ensures t.regs[3] == s.regs[3] && t.regs[4] == s.regs[4] && t.mem == s.mem
    ensures Inv(x, t, stack[..|stack| - 2], locals) && Keeps(x, s, t)
  {
    var u := ExecPop(x, s, stack, locals, wide, rb);
    t := ExecPop(x, u, stack[..|stack| - 1], locals, wide, ra);
    assert stack[..|stack| - 1][..|stack| - 2] == stack[..|stack| - 2];
    Chain(PopCode(wide, rb), PopCode(wide, ra), s, u, t);
    KeepsTrans(x, s, u, t);
  }

  /** A comparison up to the push of its result, which is left in x0. */
  lemma ExecDecide(x: Ctx, s: State, stack: seq<W.Value>, locals: seq<W.Value>, wide: bool, cmp: W.Cmp)
      returns (t: State)
    requires Separate(x) && Inv(x, s, stack, locals) && |stack| >= 2
    requires stack[|stack| - 1].wide == wide && stack[|stack| - 2].wide == wide
    ensures Exec([Movz(true, 3, 1), Movz(true, 4, 0)] + (PopCode(wide, 12) + PopCode(wide, 11))
                 + [CmpReg(wide, 11, 12), Csel(true, 0, 3, 4, CondOf(cmp))], s) == Some(t)
    ensures t.pc == s.pc + 32 && Keeps(x, s, t) && Inv(x, t, stack[..|stack| - 2], locals) && t.mem == s.mem
    ensures t.regs[0] == W.Flag(W.Holds(cmp, wide, stack[|stack| - 2].bits, stack[|stack| - 1].bits)).bits
  {
    var a, b := stack[|stack| - 2].bits, stack[|stack| - 1].bits;
    var ones, pops := [Movz(true, 3, 1), Movz(true, 4, 0)], PopCode(wide, 12) + PopCode(wide, 11);
    ExecOneZero(s);
    var s1 := s.(regs := s.regs[3 := 1][4 := 0], pc := s.pc + 8);
    InvScratch(x, s, s1, stack, locals);
    var s2 := ExecOperands(x, s1, stack, locals, wide, 12, 11);
    t := ExecSelect(s2, wide, cmp, a, b);
    InvScratch(x, s2, t, stack[..|stack| - 2], locals);
    Chain(ones, pops, s, s1, s2);
    Chain(ones + pops, [CmpReg(wide, 11, 12), Csel(true, 0, 3, 4, CondOf(cmp))], s, s2, t);
    KeepsTrans(x, s, s1, s2);
    KeepsTrans(x, s, s2, t);
  }

  lemma ExecCompare(x: Ctx, s: State, stack: seq<W.Value>, locals: seq<W.Value>, wide: bool, cmp: W.Cmp)
      returns (t: State)
    requires Separate(x) && Inv(x, s, stack, locals) && |stack| >= 2
    requires stack[|stack| - 1].wide == wide && stack[|stack| - 2].wide == wide
    ensures Exec(CompareCode(wide, CondOf(cmp)), s) == Some(t) && t.pc == s.pc + 40 && Keeps(x, s, t)
    ensures
      var v := W.Flag(W.Holds(cmp, wide, stack[|stack| - 2].bits, stack[|stack| - 1].bits));
      Inv(x, t, stack[..|stack| - 2] + [v], locals) && t.mem == Store(s.mem, x.wst + 8 * (|stack| - 2), true, v.bits)
  {
    var v := W.Flag(W.Holds(cmp, wide, stack[|stack| - 2].bits, stack[|stack| - 1].bits));
    var u := ExecDecide(x, s, stack, locals, wide, cmp);
    t := ExecPush(x, u, stack[..|stack| - 2], locals, true, 0, v);
    Chain([Movz(true, 3, 1), Movz(true, 4, 0)] + (PopCode(wide, 12) + PopCode(wide, 11))
          + [CmpReg(wide, 11, 12), Csel(true, 0, 3, 4, CondOf(cmp))], PushCode(true, 0), s, u, t);
    KeepsTrans(x, s, u, t);
  }

  /** The instruction of an operation that does not trap computes its result. */
  lemma NextArith(s: State, wide: bool, arith: W.Arith, a: W.Value, b: W.Value)
    requires a.wide == wide && b.wide == wide && s.regs[12] == a.bits && s.regs[11] == b.bits
    requires !W.JitTraps(arith, wide, a.bits, b.bits)
    ensures !W.RefTraps(arith, wide, a.bits, b.bits)
    ensures Next(ArithInstr(wide, arith), s) ==
            Some(s.(regs := s.regs[11 := W.Result(arith, wide, a, b).bits], pc := s.pc + 4))
  {
    PartFits(a.bits, wide);
    PartFits(b.bits, wide);
    hide Wrap, TruncDiv, SInt, Part;
    match arith
    case Add => NextSum(s, wide, false, a, b);
    case Sub => NextSum(s, wide, true, a, b);
    case Mul =>
    case DivS => NextQuotient(s, wide, true, a, b);
    case DivU => NextQuotient(s, wide, false, a, b);
  }

  lemma NextSum(s: State, wide: bool, sub: bool, a: W.Value, b: W.Value)
    requires Part(a.bits, wide) == a.bits && Part(b.bits, wide) == b.bits && s.regs[12] == a.bits
        && s.regs[11] == b.bits
    ensures Next(AddSubReg(wide, sub, false, 11, 12, 11, 0, 0), s) ==
            Some(s.(regs := s.regs[11 := Wrap(if sub then a.bits - b.bits else a.bits + b.bits, wide)], pc := s.pc + 4))
  {
    hide Wrap, Part;
  }

  lemma NextQuotient(s: State, wide: bool, signed: bool, a: W.Value, b: W.Value)
    requires Part(a.bits, wide) == a.bits && Part(b.bits, wide) == b.bits && s.regs[12] == a.bits
        && s.regs[11] == b.bits
    requires b.bits != 0 && (signed ==> SInt(b.bits, wide) != 0)
    ensures Next(Div(wide, signed, 11, 12, 11), s) ==
            Some(s.(regs := s.regs[11 := Wrap(if signed then TruncDiv(SInt(a.bits, wide), SInt(b.bits, wide))
                else a.bits / b.bits, wide)],
                pc := s.pc + 4))
  {
    hide Wrap, TruncDiv, SInt, Part;
  }

  lemma ExecArith(x: Ctx, s: State, stack: seq<W.Value>, locals: seq<W.Value>, wide: bool, arith: W.Arith, a: W.Value,
      b: W.Value)
    returns (t: State)
    requires Separate(x) && Inv(x, s, stack, locals) && |stack| < W.SLOTS
    requires a.wide == wide && b.wide == wide && s.regs[12] == a.bits && s.regs[11] == b.bits
    requires !W.JitTraps(arith, wide, a.bits, b.bits)
    ensures !W.RefTraps(arith, wide, a.bits, b.bits)
    ensures Exec([ArithInstr(wide, arith)] + PushCode(wide, 11), s) == Some(t) && t.pc == s.pc + 12 && Keeps(x, s, t)
    ensures Inv(x, t, stack + [W.Result(arith, wide, a, b)], locals)
    ensures t.mem == Store(s.mem, x.wst + 8 * |stack|, wide, W.Result(arith, wide, a, b).bits)
  {
    NextArith(s, wide, arith, a, b);
    var v := W.Result(arith, wide, a, b);
    var u := s.(regs := s.regs[11 := v.bits], pc := s.pc + 4);
    ExecOne(ArithInstr(wide, arith), s);
    InvScratch(x, s, u, stack, locals);
    PartFits(v.bits, wide);
    t := ExecPush(x, u, stack, locals, wide, 11, v);
    Chain([ArithInstr(wide, arith)], PushCode(wide, 11), s, u, t);
    KeepsTrans(x, s, u, t);
  }

  // Reaching: straight-line code at its place in the program.

  lemma ReachesCode(p: Program, pos: int, code: seq<Instr>, s: State, t: State)
    requires CodeAt(p, pos, code) && s.pc == p.base + 4 * pos && Exec(code, s) == Some(t)
    requires forall i | i in code :: !IsBranch(i)
    ensures Reaches(p, s, t)
  {
    ReachesExec(p, pos, code, s);
  }

  lemma InstrAt(p: Program, pos: int, code: seq<Instr>, k: nat)
    requires CodeAt(p, pos, code) && k < |code|
    ensures 0 <= pos + k < |p.code| && p.code[pos + k] == code[k]
  {
    assert p.code[pos..pos + |code|][k] == code[k];
  }

  /** A conditional branch at word `pos`. */
  lemma ReachesBranch(p: Program, pos: int, s: State, cond: nat, dist: int) returns (t: State)
    requires CodeAt(p, pos, [BranchCond(cond, dist)]) && s.pc == p.base + 4 * pos
    ensures t == s.(pc := p.base + 4 * (pos + if CondHolds(cond, s) then dist else 1)) && Reaches(p, s, t)
  {
    InstrAt(p, pos, [BranchCond(cond, dist)], 0);
    t := s.(pc := p.base + 4 * (pos + if CondHolds(cond, s) then dist else 1));
    ReachesStep(p, s, t);
  }

  lemma ReachesJump(p: Program, pos: int, s: State, dist: int) returns (t: State)
    requires CodeAt(p, pos, [Branch(false, dist)]) && s.pc == p.base + 4 * pos
    ensures t == s.(pc := p.base + 4 * (pos + dist)) && Reaches(p, s, t)
  {
    InstrAt(p, pos, [Branch(false, dist)], 0);
    t := s.(pc := p.base + 4 * (pos + dist));
    ReachesStep(p, s, t);
  }
}
