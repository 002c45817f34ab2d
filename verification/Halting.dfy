/**
 The generated code always halts, and what it answers is determined. Two runs of a function's code are followed side by
 side, the second perhaps with more locals and elsewhere in memory. Between two instructions memory may be read as
 values of whatever types the next one wants, so nothing is asked of the operand stack's contents, only of its height:
 both runs come to the same place, and as long as the two stacks hold the same bytes they go on doing so, whatever the
 `if`s leave behind. A run beside itself shows that it halts.
 */
module Halting {
  import opened Numbers
  import opened Isa
  import opened Machine
  import opened Codegen
  import opened Layout
  import opened Simulation
  import opened Body
  import opened Function
  import opened Image
  import opened Correctness
  import opened History
  import Emission
  import T = Typing
  import W = Wasm

  /** The machine is between two instructions of the body, with `d` slots of the operand stack in use. */
  ghost predicate Shaped(x: Ctx, s: State, d: nat) {
    s.regs[BUFFER] == x.buf && s.regs[STACK] == x.wst && s.regs[DEPTH] == 8 * d && s.sp == x.fp && d <= W.SLOTS
  }

  /** What the operand stack's memory holds, read as values of one width. */
  function Held(m: Mem, at: int, d: nat, wide: bool): (cells: seq<W.Cell>)
    ensures |cells| == d && forall k :: 0 <= k < d ==> cells[k] == W.Cell(W.Val(wide, Load(m, at + 8 * k, wide)), false)
  {
    seq(d, k requires 0 <= k < d => W.Cell(W.Val(wide, Load(m, at + 8 * k, wide)), false))
  }

  /** What the slots hold. */
  function HeldLocals(x: Ctx, m: Mem): (vs: seq<W.Value>)
    ensures |vs| == |x.slots| && forall i :: 0 <= i < |vs| ==>
        vs[i] == W.Val(x.slots[i].wide, Load(m, SlotAt(x, i), x.slots[i].wide))
  {
    seq(|x.slots|, i requires 0 <= i < |x.slots| => W.Val(x.slots[i].wide, Load(m, SlotAt(x, i), x.slots[i].wide)))
  }

  function View(x: Ctx, s: State, d: nat, wide: bool): W.St {
    W.St(Held(s.mem, x.wst, d, wide), HeldLocals(x, s.mem), false)
  }

  lemma Viewed(x: Ctx, s: State, d: nat, wide: bool)
    requires Shaped(x, s, d)
    ensures Sees(x, s, View(x, s, d, wide))
  {}

  lemma SeenShape(x: Ctx, s: State, st: W.St)
    requires Sees(x, s, st)
    ensures Shaped(x, s, |st.stack|)
  {}

  function SlotWidths(slots: seq<Slot>): (ws: seq<bool>)
    ensures |ws| == |slots| && forall i :: 0 <= i < |ws| ==> ws[i] == slots[i].wide
  {
    seq(|slots|, i requires 0 <= i < |slots| => slots[i].wide)
  }

  /** The width of an instruction's operands. */
  function Wanted(op: W.Op, locals: seq<bool>): bool {
    if op.Compare? || op.Binary? then op.wide else if (op.Put? || op.Tee?)
        && op.i < |locals| then locals[op.i] else false
  }

  lemma DropLength(stack: seq<bool>, wide: bool, n: nat)
    requires T.Drop(stack, wide, n).Some?
    ensures |stack| >= n && |T.Drop(stack, wide, n).value| == |stack| - n
    decreases n
  {
    if n > 0 {
      DropLength(stack[..|stack| - 1], wide, n - 1);
    }
  }

  /** A valid instruction is neither stuck nor overflows, and changes the height as validation says. */
  lemma Steady(op: W.Op, st: W.St, high: nat, stack: seq<bool>, locals: seq<bool>)
    requires T.TypeOp(op, stack, locals).Some? && |stack| <= |st.stack| <= high && T.Rise(op, high) <= W.SLOTS
    requires |locals| == |st.locals| && forall i :: 0 <= i < |locals| ==> locals[i] == st.locals[i].wide
    requires forall k :: 0 <= k < |st.stack| ==> st.stack[k].v.wide == Wanted(op, locals)
    ensures W.JitOp(op, st).Done? || (W.JitOp(op, st).Trap? && IsDiv(op))
    ensures W.JitOp(op, st).Done? ==>
      |st.stack| + |T.TypeOp(op, stack, locals).value| == |W.JitOp(op, st).st.stack| + |stack|
          && |W.JitOp(op, st).st.stack| <= T.Rise(op, high)
  {
    hide T.Drop;
    match op
    case Put(i) => DropLength(stack, locals[i], 1);
    case Tee(i) => DropLength(stack, locals[i], 1);
    case Compare(wide, _) => DropLength(stack, wide, 2);
    case Binary(wide, _) => DropLength(stack, wide, 2);
    case _ =>
  }

  /** A valid body names only variables that it has. */
  lemma {:induction false} TypedVars(c: W.Code, stack: seq<bool>, locals: seq<bool>, slots: seq<Slot>)
    requires T.Type(c, stack, locals).Some? && |slots| == |locals|
    ensures Emission.VarsInRange(c, slots)
    decreases c
  {
    hide T.Drop;
    match c
    case End =>
    case Do(op, rest) => TypedVars(rest, T.TypeOp(op, stack, locals).value, locals, slots);
    case IfThen(_, thn, rest) =>
      TypedVars(thn, [], locals, slots);
      TypedVars(rest, T.Drop(stack, false, 1).value, locals, slots);
    case IfElse(block, thn, els, rest) =>
      TypedVars(thn, [], locals, slots);
      TypedVars(els, [], locals, slots);
      TypedVars(rest, T.Drop(stack, false, 1).value + T.Results(block), locals, slots);
  }

  lemma {:induction false} LengthKept(c: W.Code, slots: seq<Slot>, slots': seq<Slot>)
    requires Emission.VarsInRange(c, slots) && |slots| <= |slots'|
    ensures Length(c, slots') == Length(c, slots)
    decreases c
  {
    match c
    case End =>
    case Do(op, rest) =>
      assert OpLength(op, slots') == OpLength(op, slots);
      LengthKept(rest, slots, slots');
    case IfThen(_, thn, rest) =>
      LengthKept(thn, slots, slots');
      LengthKept(rest, slots, slots');
    case IfElse(_, thn, els, rest) =>
      LengthKept(thn, slots, slots');
      LengthKept(els, slots, slots');
      LengthKept(rest, slots, slots');
  }

  // Two runs.

  /** Where the two runs happen, and their labels `normal_div`: the second one's words are `k` further on. */
  datatype Duo = Duo(x: Ctx, x': Ctx, k: nat, normal: int, normal': int)

  /** Both have their regions, and the second at least the variables of the first. */
  ghost predicate Beside(w: Duo) {
    && Separate(w.x) && Separate(w.x') && |w.x.slots| <= |w.x'.slots|
    && forall i :: 0 <= i < |w.x.slots| ==> w.x'.slots[i].wide == w.x.slots[i].wide
  }

  /** The two operand stacks hold the same, all of their 8192 bytes. */
  ghost predicate SameStack(w: Duo, m: Mem, m': Mem) {
    forall k :: 0 <= k < 2 * W.SLOTS ==> Peek(m', w.x'.wst + 4 * k) == Peek(m, w.x.wst + 4 * k)
  }

  /** The first run's variables have the same values in the second. */
  ghost predicate SameLocals(w: Duo, m: Mem, m': Mem) {
    && |w.x.slots| <= |w.x'.slots|
    && forall i :: 0 <= i < |w.x.slots| ==>
      w.x'.slots[i].wide == w.x.slots[i].wide
      && Load(m', SlotAt(w.x', i), w.x.slots[i].wide) == Load(m, SlotAt(w.x, i), w.x.slots[i].wide)
  }

  /** Both are between two instructions, with the same stacks and variables. */
  ghost predicate Twin(w: Duo, s: State, s': State, d: nat) {
    Shaped(w.x, s, d) && Shaped(w.x', s', d) && SameStack(w, s.mem, s'.mem) && SameLocals(w, s.mem, s'.mem)
  }

  /** Both are at word `pos` of the first. */
  predicate AtWord(w: Duo, s: State, s': State, pos: int) { s.pc == At(w.x, pos) && s'.pc == At(w.x', pos + w.k) }

  predicate AtTrap(w: Duo, s: State, s': State) { s.pc == At(w.x, PREPARE) && s'.pc == At(w.x', PREPARE) }

  ghost predicate BothGo(w: Duo, s: State, s': State, t: State, t': State) { Goes(w.x, s, t) && Goes(w.x', s', t') }

  lemma BothTrans(w: Duo, s: State, s': State, t: State, t': State, u: State, u': State)
    requires BothGo(w, s, s', t, t') && BothGo(w, t, t', u, u')
    ensures BothGo(w, s, s', u, u')
  {
    hide Goes;
    GoesTrans(w.x, s, t, u);
    GoesTrans(w.x', s', t', u');
  }

  /** The values of the second run's other variables. */
  function Others(w: Duo, m: Mem): seq<W.Value>
    requires |w.x.slots| <= |w.x'.slots|
  {
    HeldLocals(w.x', m)[|w.x.slots|..]
  }

  lemma SameHeld(w: Duo, m: Mem, m': Mem, d: nat, wide: bool)
    requires SameStack(w, m, m') && d <= W.SLOTS
    ensures Held(m', w.x'.wst, d, wide) == Held(m, w.x.wst, d, wide)
  {
    forall k | 0 <= k < d ensures Load(m', w.x'.wst + 8 * k, wide) == Load(m, w.x.wst + 8 * k, wide) {
      assert Peek(m', w.x'.wst + 4 * (2 * k)) == Peek(m, w.x.wst + 4 * (2 * k));
      assert Peek(m', w.x'.wst + 4 * (2 * k + 1)) == Peek(m, w.x.wst + 4 * (2 * k + 1));
    }
  }

  lemma SameView(w: Duo, s: State, s': State, d: nat, wide: bool)
    requires Twin(w, s, s', d)
    ensures View(w.x', s', d, wide) == WiderSt(View(w.x, s, d, wide), Others(w, s'.mem))
  {
    hide SameStack, Held;
    SameHeld(w, s.mem, s'.mem, d, wide);
    assert HeldLocals(w.x', s'.mem) == HeldLocals(w.x, s.mem) + Others(w, s'.mem);
  }

  /** The same store to both stacks. */
  lemma StackStored(w: Duo, m: Mem, m': Mem, p: nat, wide: bool, v: U64)
    requires SameStack(w, m, m') && p < W.SLOTS
    ensures SameStack(w, Store(m, w.x.wst + 8 * p, wide, v), Store(m', w.x'.wst + 8 * p, wide, v))
  {
    var m1, m1' := Store(m, w.x.wst + 8 * p, wide, v), Store(m', w.x'.wst + 8 * p, wide, v);
    forall k | 0 <= k < 2 * W.SLOTS ensures Peek(m1', w.x'.wst + 4 * k) == Peek(m1, w.x.wst + 4 * k) {
      assert w.x.wst + 4 * k == w.x.wst + 8 * p <==> k == 2 * p;
      assert w.x.wst + 4 * k == w.x.wst + 8 * p + 4 <==> k == 2 * p + 1;
    }
  }

  /** A store to a variable leaves the stack alone. */
  lemma VariableStored(x: Ctx, m: Mem, i: nat, v: U64, k: nat)
    requires Separate(x) && i < |x.slots| && k < 2 * W.SLOTS
    ensures Peek(Store(m, SlotAt(x, i), x.slots[i].wide, v), x.wst + 4 * k) == Peek(m, x.wst + 4 * k)
  {
    hide SlotsApart;
  }

  lemma WroteSame(w: Duo, op: W.Op, st: W.St, vs: seq<W.Value>, m: Mem, m1: Mem, m': Mem, m1': Mem)
    requires Beside(w) && SameStack(w, m, m') && W.JitOp(op, st).Done? && |W.JitOp(op, st).st.stack| <= W.SLOTS
    requires W.JitOp(op, WiderSt(st, vs)) == WiderEnd(W.JitOp(op, st), vs)
    requires Body.Wrote(w.x, op, st, m, m1) && Body.Wrote(w.x', op, WiderSt(st, vs), m', m1')
    ensures SameStack(w, m1, m1')
  {
    hide W.JitOp, SameStack, Store, Separate;
    if op.Nop? || op.Return? {
    } else if op.Put? || op.Tee? {
      VariablesStored(w, m, m', op.i, W.Top(st).v.bits);
    } else {
      var st1 := W.JitOp(op, st).st;
      assert W.Top(WiderSt(st1, vs)) == W.Top(st1);
      StackStored(w, m, m', |st1.stack| - 1, op.Compare? || W.Top(st1).v.wide, W.Top(st1).v.bits);
    }
  }

  lemma VariablesStored(w: Duo, m: Mem, m': Mem, i: nat, v: U64)
    requires Separate(w.x) && Separate(w.x') && i < |w.x.slots| && i < |w.x'.slots| && SameStack(w, m, m')
    ensures
      SameStack(w, Store(m, SlotAt(w.x, i), w.x.slots[i].wide, v), Store(m', SlotAt(w.x', i), w.x'.slots[i].wide, v))
  {
    hide Separate, Store, SlotAt;
    var m1, m1' := Store(m, SlotAt(w.x, i), w.x.slots[i].wide, v), Store(m', SlotAt(w.x', i), w.x'.slots[i].wide, v);
    forall k: nat | k < 2 * W.SLOTS ensures Peek(m1', w.x'.wst + 4 * k) == Peek(m1, w.x.wst + 4 * k) {
      VariableStored(w.x, m, i, v, k);
      VariableStored(w.x', m', i, v, k);
    }
  }

  lemma SeenLocals(w: Duo, t: State, t': State, st: W.St, vs: seq<W.Value>)
    requires Beside(w) && Sees(w.x, t, st) && Sees(w.x', t', WiderSt(st, vs))
    ensures SameLocals(w, t.mem, t'.mem)
  {
    hide Separate, StackOk;
    forall i | 0 <= i < |w.x.slots|
      ensures Load(t'.mem, SlotAt(w.x', i), w.x.slots[i].wide) == Load(t.mem, SlotAt(w.x, i), w.x.slots[i].wide)
    {
      assert InMemory(t.mem, SlotAt(w.x, i), st.locals[i]);
      assert InMemory(t'.mem, SlotAt(w.x', i), WiderSt(st, vs).locals[i]);
    }
  }

  // The code of a body.

  /**
   From height `d`, a part of the code that validation takes from height `stack` to `stack'` arrives in both runs: at
   `preparelongjmp`, or at word `end` with the same stacks and variables, at least as high as validation says, since the
   `if`s leave their conditions, and at most `high`.
   */
  ghost predicate Comes(w: Duo, s: State, s': State, d: nat, stack: nat, stack': nat, high: nat, end: int, t: State,
                        t': State) {
    && BothGo(w, s, s', t, t')
    && (AtTrap(w, t, t')
        || (AtWord(w, t, t', end)
            && exists d': nat :: Twin(w, t, t', d') && d + stack' <= d' + stack && d' <= high))
  }

  lemma ComesAt(w: Duo, s: State, s': State, d: nat, stack: nat, stack': nat, high: nat, end: int, t: State, t': State,
                d': nat)
    requires BothGo(w, s, s', t, t') && AtWord(w, t, t', end) && Twin(w, t, t', d')
    requires d + stack' <= d' + stack && d' <= high
    ensures Comes(w, s, s', d, stack, stack', high, end, t, t')
  {}

  lemma ComesTrap(w: Duo, s: State, s': State, d: nat, stack: nat, stack': nat, high: nat, end: int, t: State,
                  t': State)
    requires BothGo(w, s, s', t, t') && AtTrap(w, t, t')
    ensures Comes(w, s, s', d, stack, stack', high, end, t, t')
  {}

  /** What both find at a place of the code. */
  ghost predicate BothCode(w: Duo, pos: nat, code: seq<Instr>, code': seq<Instr>) {
    CodeAt(w.x.p, pos, code) && CodeAt(w.x'.p, pos + w.k, code')
  }

  ghost predicate BothThen(w: Duo, mid: int, rest: W.Code, end: int) {
    Then(w.x, mid, rest, end, w.normal) && Then(w.x', mid + w.k, rest, end + w.k, w.normal')
  }

  lemma TwinViews(w: Duo, s: State, s': State, d: nat, wide: bool)
    requires Twin(w, s, s', d)
    ensures Sees(w.x, s, View(w.x, s, d, wide)) && Sees(w.x', s', WiderSt(View(w.x, s, d, wide), Others(w, s'.mem)))
  {
    hide View, Sees, SameStack, SameLocals;
    Viewed(w.x, s, d, wide);
    Viewed(w.x', s', d, wide);
    SameView(w, s, s', d, wide);
  }

  lemma ViewSteady(w: Duo, op: W.Op, s: State, d: nat, high: nat, stack: seq<bool>)
    requires T.TypeOp(op, stack, SlotWidths(w.x.slots)).Some? && |stack| <= d <= high && T.Rise(op, high) <= W.SLOTS
    ensures
      var o := W.JitOp(op, View(w.x, s, d, Wanted(op, SlotWidths(w.x.slots))));
      && (o.Done? || o.Trap?)
      && (o.Done? ==>
        d + |T.TypeOp(op, stack, SlotWidths(w.x.slots)).value| == |o.st.stack| + |stack|
        && |o.st.stack| <= T.Rise(op, high))
  {
    hide W.JitOp, T.TypeOp, T.Rise;
    Steady(op, View(w.x, s, d, Wanted(op, SlotWidths(w.x.slots))), high, stack, SlotWidths(w.x.slots));
  }

  lemma BothStep(w: Duo, op: W.Op, pos: nat, s: State, s': State, st: W.St, vs: seq<W.Value>)
    returns (t: State, t': State)
    requires Beside(w) && Sees(w.x, s, st) && Sees(w.x', s', WiderSt(st, vs)) && AtWord(w, s, s', pos)
    requires BothCode(w, pos, OpCode(op, pos, w.x.slots, w.normal), OpCode(op, pos + w.k, w.x'.slots, w.normal'))
    requires IsDiv(op) ==> w.normal == pos + DivLabel(op.wide) && w.normal' == w.normal + w.k
    requires (W.JitOp(op, st).Done? && |W.JitOp(op, st).st.stack| <= W.SLOTS) || W.JitOp(op, st).Trap?
    requires SameStack(w, s.mem, s'.mem) && OpLength(op, w.x'.slots) == OpLength(op, w.x.slots)
    ensures BothGo(w, s, s', t, t') && (W.JitOp(op, st).Trap? ==> AtTrap(w, t, t'))
    ensures W.JitOp(op, st).Done? ==>
      AtWord(w, t, t', pos + OpLength(op, w.x.slots)) && Twin(w, t, t', |W.JitOp(op, st).st.stack|)
  {
    hide Separate, Sees, CodeAt, OpCode, OpLength, W.JitOp, Goes, SameStack, SameLocals, Body.Wrote, Shaped;
    JitOpIgnores(op, st, vs);
    t := RunStep(w.x, op, pos, w.normal, s, st);
    t' := RunStep(w.x', op, pos + w.k, w.normal', s', WiderSt(st, vs));
    if W.JitOp(op, st).Done? {
      var st1 := W.JitOp(op, st).st;
      SeenShape(w.x, t, st1);
      SeenShape(w.x', t', WiderSt(st1, vs));
      WroteSame(w, op, st, vs, s.mem, t.mem, s'.mem, t'.mem);
      SeenLocals(w, t, t', st1, vs);
    }
  }

  lemma TwinKeeps(w: Duo, s: State, s': State, d: nat)
    requires Twin(w, s, s', d)
    ensures SameStack(w, s.mem, s'.mem) && |w.x.slots| <= |w.x'.slots|
  {}

  lemma SameLength(w: Duo, op: W.Op, stack: seq<bool>)
    requires T.TypeOp(op, stack, SlotWidths(w.x.slots)).Some? && |w.x.slots| <= |w.x'.slots|
    ensures OpLength(op, w.x'.slots) == OpLength(op, w.x.slots)
  {}

  lemma HaltsOp(w: Duo, op: W.Op, pos: nat, s: State, s': State, d: nat, e: nat, stack: seq<bool>)
    returns (t: State, t': State)
    requires Beside(w) && Twin(w, s, s', d) && AtWord(w, s, s', pos)
    requires BothCode(w, pos, OpCode(op, pos, w.x.slots, w.normal), OpCode(op, pos + w.k, w.x'.slots, w.normal'))
    requires IsDiv(op) ==> w.normal == pos + DivLabel(op.wide) && w.normal' == w.normal + w.k
    requires T.TypeOp(op, stack, SlotWidths(w.x.slots)).Some?
    requires |stack| <= d <= e && T.Rise(op, e) <= W.SLOTS
    ensures Comes(w, s, s', d, |stack|, |T.TypeOp(op, stack, SlotWidths(w.x.slots)).value|, T.Rise(op, e),
                  pos + OpLength(op, w.x.slots), t, t')
  {
    hide Beside, Twin, BothCode, OpCode, OpLength, T.TypeOp, T.Rise, W.JitOp, BothGo, Sees, Comes, AtWord, View,
         SameStack, Others;
    TwinKeeps(w, s, s', d);
    var wide := Wanted(op, SlotWidths(w.x.slots));
    var st := View(w.x, s, d, wide);
    TwinViews(w, s, s', d, wide);
    ViewSteady(w, op, s, d, e, stack);
    SameLength(w, op, stack);
    t, t' := BothStep(w, op, pos, s, s', st, Others(w, s'.mem));
    if W.JitOp(op, st).Done? {
      ComesAt(w, s, s', d, |stack|, |T.TypeOp(op, stack, SlotWidths(w.x.slots)).value|, T.Rise(op, e),
              pos + OpLength(op, w.x.slots), t, t', |W.JitOp(op, st).st.stack|);
    } else {
      ComesTrap(w, s, s', d, |stack|, |T.TypeOp(op, stack, SlotWidths(w.x.slots)).value|, T.Rise(op, e),
                pos + OpLength(op, w.x.slots), t, t');
    }
  }

  /** The test of an `if` leaves stacks and variables as they are, and both take the same way. */
  lemma HaltsTest(w: Duo, pos: nat, skip: int, s: State, s': State, d: nat) returns (t: State, t': State, taken: bool)
    requires Beside(w) && Twin(w, s, s', d) && d > 0 && AtWord(w, s, s', pos)
    requires BothCode(w, pos, TestCode(skip), TestCode(skip))
    ensures BothGo(w, s, s', t, t') && Twin(w, t, t', d)
    ensures AtWord(w, t, t', pos + TEST_LENGTH + if taken then 0 else skip)
  {
    hide Separate, Shaped, CodeAt, TestCode, Goes, Sees, SameStack, SameLocals;
    var st, vs := View(w.x, s, d, false), Others(w, s'.mem);
    TwinViews(w, s, s', d, false);
    t := RunTest(w.x, pos, skip, s, st);
    t' := RunTest(w.x', pos + w.k, skip, s', WiderSt(st, vs));
    taken := W.Top(st).v.bits != 0;
    SeenShape(w.x, t, W.Peeked(st));
    SeenShape(w.x', t', W.Peeked(WiderSt(st, vs)));
  }

  /** The code of `rest` after a part that came to word `mid`. */
  lemma {:induction false} HaltsRest(w: Duo, rest: W.Code, mid: nat, end: int, s: State, s': State, d: nat,
                                     n: nat, high: nat, stack: seq<bool>, t: State, t': State)
    returns (u: State, u': State)
    requires Beside(w) && BothThen(w, mid, rest, end) && Comes(w, s, s', d, n, |stack|, high, mid, t, t')
    requires n <= d && T.Type(rest, stack, SlotWidths(w.x.slots)).Some? && T.Peak(rest, high) <= W.SLOTS
    ensures Comes(w, s, s', d, n, |T.Type(rest, stack, SlotWidths(w.x.slots)).value|, T.Left(rest, high), end, u, u')
    decreases rest, 2
  {
    hide Beside, Twin, BothThen, T.Type, T.Peak, T.Left, BothGo, AtWord, AtTrap;
    u, u' := t, t';
    if !AtTrap(w, t, t') {
      var d': nat :| Twin(w, t, t', d') && d + |stack| <= d' + n && d' <= high;
      u, u' := HaltsCode(w, rest, mid, end, t, t', d', high, stack);
      BothTrans(w, s, s', t, t', u, u');
    }
  }

  /** The first arm's jump over the second. */
  lemma HaltsJump(w: Duo, pos: nat, next: int, s: State, s': State, d: nat, n: nat, n': nat, high: nat, t: State,
                  t': State) returns (u: State, u': State)
    requires Comes(w, s, s', d, n, n', high, pos, t, t')
    requires BothCode(w, pos, [Branch(false, next - pos)], [Branch(false, next - pos)])
    ensures Comes(w, s, s', d, n, n', high, next, u, u')
  {
    hide CodeAt, Goes, SameStack, SameLocals, Shaped;
    u, u' := t, t';
    if !AtTrap(w, t, t') {
      var d': nat :| Twin(w, t, t', d') && d + n' <= d' + n && d' <= high;
      u := ReachesJump(w.x.p, pos, t, next - pos);
      u' := ReachesJump(w.x'.p, pos + w.k, t', next - pos);
      OnlyPc(w.x, t, u, d');
      OnlyPc(w.x', t', u', d');
      BothTrans(w, s, s', t, t', u, u');
      ComesAt(w, s, s', d, n, n', high, next, u, u', d');
    }
  }

  lemma OnlyPc(x: Ctx, s: State, t: State, d: nat)
    requires t == s.(pc := t.pc) && Reaches(x.p, s, t) && Shaped(x, s, d)
    ensures Goes(x, s, t) && Shaped(x, t, d)
  {}

  /** Where the parts of an `if` are, in both runs. */
  ghost predicate BothLaid(w: Duo, c: W.Code, pos: nat, thn: nat, els: nat, end: int)
    requires c.IfThen? || c.IfElse?
  {
    Laid(w.x, c, pos, thn, els, end, w.normal) && Laid(w.x', c, pos + w.k, thn, els, end + w.k, w.normal')
  }

  lemma LaidParts(w: Duo, c: W.Code, pos: nat, thn: nat, els: nat, end: int)
    requires (c.IfThen? || c.IfElse?) && BothLaid(w, c, pos, thn, els, end)
    ensures
      var mid := pos + TEST_LENGTH + thn;
      && BothCode(w, pos, TestCode(thn), TestCode(thn)) && BothThen(w, mid + els, c.rest, end)
      && (c.IfThen? ==> els == 0 && BothThen(w, pos + TEST_LENGTH, c.thn, mid))
      && (c.IfElse? ==>
        && BothThen(w, pos + TEST_LENGTH, c.thn, mid - 1) && BothThen(w, mid, c.els, mid + els)
        && mid > 0 && BothCode(w, mid - 1, [Branch(false, els + 1)], [Branch(false, els + 1)]))
  {
    hide Then, CodeAt, TestCode;
  }

  lemma DuoParts(w: Duo, c: W.Code, pos: nat, end: int, stack: seq<bool>) returns (thn: nat, els: nat)
    requires (c.IfThen? || c.IfElse?) && BothThen(w, pos, c, end) && |w.x.slots| <= |w.x'.slots|
    requires T.Type(c, stack, SlotWidths(w.x.slots)).Some?
    ensures BothLaid(w, c, pos, thn, els, end)
  {
    hide Laid, Then, T.Drop, Length;
    match c
    case IfThen(block, t, rest) =>
      TypedVars(t, [], SlotWidths(w.x.slots), w.x.slots);
      LengthKept(t, w.x.slots, w.x'.slots);
      thn, els := Length(t, w.x.slots), 0;
      IfThenParts(w.x, block, t, rest, pos, end, w.normal);
      IfThenParts(w.x', block, t, rest, pos + w.k, end + w.k, w.normal');
    case IfElse(block, t, e, rest) =>
      TypedVars(t, [], SlotWidths(w.x.slots), w.x.slots);
      LengthKept(t, w.x.slots, w.x'.slots);
      TypedVars(e, [], SlotWidths(w.x.slots), w.x.slots);
      LengthKept(e, w.x.slots, w.x'.slots);
      thn, els := Length(t, w.x.slots) + 1, Length(e, w.x.slots);
      IfElseParts(w.x, block, t, e, rest, pos, end, w.normal);
      IfElseParts(w.x', block, t, e, rest, pos + w.k, end + w.k, w.normal');
  }

  /** The test of an `if` and the arm that it chooses: at least the block's results more than before. */
  lemma {:induction false} HaltsArm(w: Duo, c: W.Code, pos: nat, thn: nat, els: nat, end: int, s: State,
                                    s': State, d: nat, e: nat) returns (t: State, t': State)
    requires (c.IfThen? || c.IfElse?) && Beside(w) && Twin(w, s, s', d) && AtWord(w, s, s', pos)
    requires BothLaid(w, c, pos, thn, els, end)
    requires T.Type(c.thn, [], SlotWidths(w.x.slots)) == Some(T.Results(c.block))
    requires !c.IfElse? ==> T.Results(c.block) == []
    requires c.IfElse? ==> T.Type(c.els, [], SlotWidths(w.x.slots)) == Some(T.Results(c.block))
    requires 0 < d <= e && T.Peak(c.thn, e) <= W.SLOTS && (c.IfElse? ==> T.Peak(c.els, e) <= W.SLOTS)
    ensures Comes(w, s, s', d, 0, |T.Results(c.block)|, ArmLeft(c, e), pos + TEST_LENGTH + thn + els, t, t')
    decreases c, 0, 0
  {
    hide Beside, Twin, BothLaid, BothThen, BothCode, BothGo, AtWord, AtTrap, T.Type, T.Peak, T.Left, T.Results, Comes,
         TestCode;
    LaidParts(w, c, pos, thn, els, end);
    var mid, results := pos + TEST_LENGTH + thn, |T.Results(c.block)|;
    var u, u', taken := HaltsTest(w, pos, thn, s, s', d);
    if taken {
      ComesAt(w, s, s', d, 0, 0, e, pos + TEST_LENGTH, u, u', d);
      if c.IfThen? {
        t, t' := HaltsRest(w, c.thn, pos + TEST_LENGTH, mid, s, s', d, 0, e, [], u, u');
      } else {
        t, t' := HaltsRest(w, c.thn, pos + TEST_LENGTH, mid - 1, s, s', d, 0, e, [], u, u');
        t, t' := HaltsJump(w, mid - 1, mid + els, s, s', d, 0, results, T.Left(c.thn, e), t, t');
      }
      Higher(w, s, s', d, 0, results, T.Left(c.thn, e), ArmLeft(c, e), mid + els, t, t');
    } else {
      ComesAt(w, s, s', d, 0, 0, e, mid, u, u', d);
      t, t' := u, u';
      if c.IfElse? {
        t, t' := HaltsRest(w, c.els, mid, mid + els, s, s', d, 0, e, [], u, u');
        Higher(w, s, s', d, 0, results, T.Left(c.els, e), ArmLeft(c, e), mid + els, t, t');
      } else {
        Higher(w, s, s', d, 0, 0, e, ArmLeft(c, e), mid, t, t');
      }
    }
  }

  /** The greatest height that the arms of an `if` can leave. */
  function ArmLeft(c: W.Code, e: nat): nat
    requires c.IfThen? || c.IfElse?
  {
    T.Max(T.Left(c.thn, e), if c.IfElse? then T.Left(c.els, e) else e)
  }

  lemma Higher(w: Duo, s: State, s': State, d: nat, n: nat, n': nat, high: nat, more: nat, end: int, t: State,
               t': State)
    requires Comes(w, s, s', d, n, n', high, end, t, t') && high <= more
    ensures Comes(w, s, s', d, n, n', more, end, t, t')
  {
    hide Twin, BothGo;
  }

  /** The condition stays on the machine's stack, so after an `if` it is at least as high as validation says. */
  lemma Leaving(w: Duo, s: State, s': State, d: nat, n: nat, results: nat, high: nat, end: int, t: State, t': State)
    requires Comes(w, s, s', d, 0, results, high, end, t, t') && 0 < n
    ensures Comes(w, s, s', d, n, n - 1 + results, high, end, t, t')
  {
    hide Twin, BothGo;
  }

  lemma IfTypes(c: W.Code, stack: seq<bool>, locals: seq<bool>, e: nat) returns (more: seq<bool>)
    requires (c.IfThen? || c.IfElse?) && T.Type(c, stack, locals).Some?
    ensures T.Type(c.thn, [], locals) == Some(T.Results(c.block)) && |stack| > 0
        && |more| == |stack| - 1 + |T.Results(c.block)|
    ensures if c.IfElse? then T.Type(c.els, [], locals) == Some(T.Results(c.block)) else T.Results(c.block) == []
    ensures T.Type(c.rest, more, locals) == T.Type(c, stack, locals)
    ensures T.Left(c, e) == T.Left(c.rest, ArmLeft(c, e))
    ensures T.Peak(c, e) <= W.SLOTS ==>
      T.Peak(c.thn, e) <= W.SLOTS && (c.IfElse? ==> T.Peak(c.els, e) <= W.SLOTS)
          && T.Peak(c.rest, ArmLeft(c, e)) <= W.SLOTS
  {
    hide T.Drop, T.TypeOp, T.Results;
    DropLength(stack, false, 1);
    more := T.Drop(stack, false, 1).value + T.Results(c.block);
    if c.IfThen? {
      assert more == T.Drop(stack, false, 1).value;
    }
  }

  lemma BothDo(w: Duo, c: W.Code, pos: nat, end: int, stack: seq<bool>)
    requires c.Do? && BothThen(w, pos, c, end) && |w.x.slots| <= |w.x'.slots|
    requires T.TypeOp(c.op, stack, SlotWidths(w.x.slots)).Some?
    ensures BothCode(w, pos, OpCode(c.op, pos, w.x.slots, w.normal), OpCode(c.op, pos + w.k, w.x'.slots, w.normal'))
    ensures IsDiv(c.op) ==> w.normal == pos + DivLabel(c.op.wide) && w.normal' == w.normal + w.k
    ensures BothThen(w, pos + OpLength(c.op, w.x.slots), c.rest, end)
  {
    hide Then, CodeAt, OpCode, OpLength, T.TypeOp;
    SameLength(w, c.op, stack);
    DoParts(w.x, c, pos, end, w.normal);
    DoParts(w.x', c, pos + w.k, end + w.k, w.normal');
  }

  lemma BesideSlots(w: Duo)
    requires Beside(w)
    ensures |w.x.slots| <= |w.x'.slots|
  {}

  /**
   A validated body's code comes to its end or to `preparelongjmp`, from every height that leaves it room, and two runs
   that begin with the same stacks and variables come to the same place with the same.
   */
  lemma {:induction false} HaltsCode(w: Duo, c: W.Code, pos: nat, end: int, s: State, s': State, d: nat,
                                     e: nat, stack: seq<bool>) returns (t: State, t': State)
    requires Beside(w) && Twin(w, s, s', d) && AtWord(w, s, s', pos) && BothThen(w, pos, c, end)
    requires T.Type(c, stack, SlotWidths(w.x.slots)).Some? && |stack| <= d <= e && T.Peak(c, e) <= W.SLOTS
    ensures Comes(w, s, s', d, |stack|, |T.Type(c, stack, SlotWidths(w.x.slots)).value|, T.Left(c, e), end, t, t')
    decreases c, 1
  {
    hide Beside, Twin, BothCode, BothThen, AtWord, BothGo, T.TypeOp, T.Rise, Comes, OpLength, OpCode, T.Results;
    BesideSlots(w);
    match c
    case End =>
      t, t' := s, s';
      BothStay(w, s, s');
      EndHere(w, s, s', pos, end);
      ComesAt(w, s, s', d, |stack|, |stack|, e, end, t, t', d);
    case Do(op, rest) =>
      BothDo(w, c, pos, end, stack);
      t, t' := HaltsOp(w, op, pos, s, s', d, e, stack);
      t, t' := HaltsRest(w, rest, pos + OpLength(op, w.x.slots), end, s, s', d, |stack|, T.Rise(op, e),
                         T.TypeOp(op, stack, SlotWidths(w.x.slots)).value, t, t');
    case _ => t, t' := HaltsIf(w, c, pos, end, s, s', d, e, stack);
  }

  lemma BothStay(w: Duo, s: State, s': State)
    ensures BothGo(w, s, s', s, s')
  {
    GoesRefl(w.x, s);
    GoesRefl(w.x', s');
  }

  lemma EndHere(w: Duo, s: State, s': State, pos: nat, end: int)
    requires BothThen(w, pos, W.End, end) && AtWord(w, s, s', pos)
    ensures AtWord(w, s, s', end)
  {}

  lemma {:induction false} HaltsIf(w: Duo, c: W.Code, pos: nat, end: int, s: State, s': State, d: nat, e: nat,
                                   stack: seq<bool>) returns (t: State, t': State)
    requires (c.IfThen? || c.IfElse?) && Beside(w) && Twin(w, s, s', d) && AtWord(w, s, s', pos)
    requires BothThen(w, pos, c, end)
    requires T.Type(c, stack, SlotWidths(w.x.slots)).Some? && |stack| <= d <= e && T.Peak(c, e) <= W.SLOTS
    ensures Comes(w, s, s', d, |stack|, |T.Type(c, stack, SlotWidths(w.x.slots)).value|, T.Left(c, e), end, t, t')
    decreases c, 0, 1
  {
    hide Beside, Twin, BothThen, BothLaid, BothCode, AtWord, T.Type, T.Peak, T.Left, Comes, T.Results, ArmLeft;
    BesideSlots(w);
    var thn, els := DuoParts(w, c, pos, end, stack);
    LaidParts(w, c, pos, thn, els, end);
    var more := IfTypes(c, stack, SlotWidths(w.x.slots), e);
    t, t' := HaltsArm(w, c, pos, thn, els, end, s, s', d, e);
    Leaving(w, s, s', d, |stack|, |T.Results(c.block)|, ArmLeft(c, e), pos + TEST_LENGTH + thn + els, t, t');
    t, t' := HaltsRest(w, c.rest, pos + TEST_LENGTH + thn + els, end, s, s', d, |stack|, ArmLeft(c, e), more, t, t');
  }

  // One call.

  lemma SlotTypes(fn: Fn)
    ensures SlotWidths(Slots(fn)) == Widths(fn)
  {}

  lemma ReadyShaped(x: Ctx, fn: Fn, args: seq<W.Value>, s: State, t: State)
    requires Function.Ready(x, fn, args, s, t)
    requires s.regs[BUFFER] == x.buf && s.regs[STACK] == x.wst && s.regs[DEPTH] == 0
    ensures Shaped(x, t, 0) && t.pc == At(x, BodyAt(fn)) && StackKept(x, s.mem, t.mem)
    ensures TypesMatch(x, FirstVals(fn, args)) && Filled(x, t.mem, FirstVals(fn, args), |FirstVals(fn, args)|)
  {
    hide FirstVals, Guarded, Elsewhere, StackKept;
  }

  /** What the body begins with. */
  lemma BodyStarts(x: Ctx, fn: Fn, normal: int, args: seq<W.Value>, s: State, t: State)
    requires Entered(x, fn, normal, args, s) && Function.Ready(x, fn, args, s, t)
    requires OwnDiv(fn.body, BodyAt(fn), Slots(fn), normal)
    ensures Separate(x) && x.slots == Slots(fn) && Then(x, BodyAt(fn), fn.body, FinalizeAt(fn) - 2, normal)
    ensures Shaped(x, t, 0) && t.pc == At(x, BodyAt(fn)) && StackKept(x, s.mem, t.mem)
    ensures TypesMatch(x, FirstVals(fn, args)) && Filled(x, t.mem, FirstVals(fn, args), |FirstVals(fn, args)|)
  {
    hide CodeAt, Entered, Function.Ready, Separate, Compile, OwnDiv, Length, Filled, TypesMatch, StackKept, FirstVals,
         Shaped, Slots;
    CallFacts(x, fn, normal, args, s);
    ReadyShaped(x, fn, args, s, t);
  }

  /** What the body ends with: at its exit, or at `preparelongjmp`. */
  lemma BodyEnds(x: Ctx, fn: Fn, normal: int, args: seq<W.Value>, s: State, t: State, u: State, d: nat, wide: bool)
    requires Entered(x, fn, normal, args, s) && Function.Ready(x, fn, args, s, t) && Goes(x, t, u)
    ensures Reaches(x.p, t, u) && (u.pc == At(x, PREPARE) ==> Trapped(x, fn, s, u))
    ensures u.pc == At(x, FinalizeAt(fn) - 2) && Shaped(x, u, d) ==> Completed(x, fn, s, View(x, u, d, wide), u)
  {
    hide CodeAt, Entered, Separate, Guarded, Elsewhere, StackKept, FirstVals, Filled, TypesMatch, Sees, Reaches, View,
         FinalizeAt;
    CallFacts(x, fn, normal, args, s);
    ReadySees(x, fn, normal, args, s, t);
    GuardKept(x, fn, s, t, u);
    ElsewhereKept(x, s.mem, t, u);
    if Shaped(x, u, d) {
      Viewed(x, u, d, wide);
    }
  }

  /** What a call that comes back has told: the return code is 0 or 1. */
  ghost predicate Ended(x: Ctx, u: State) { Load(u.mem, x.buf, true) == 0 || Load(u.mem, x.buf, true) == 1 }

  /** The return code is 0, and x0 has the bits on top of the operand stack, if there is a result. */
  ghost predicate Answered(x: Ctx, fn: Fn, u: State, d: nat, t: State) {
    && Load(t.mem, x.buf, true) == 0
    && (|fn.results| == 1 && d > 0 ==> t.regs[0] == Load(u.mem, x.wst + 8 * (d - 1), fn.results[0]))
  }

  function ResultWidth(fn: Fn): bool { |fn.results| == 1 && fn.results[0] }

  lemma ToldView(x: Ctx, fn: Fn, u: State, d: nat, t: State)
    requires Tells(x, fn, W.Done(View(x, u, d, ResultWidth(fn))), t)
    ensures Answered(x, fn, u, d, t)
  {
    hide LocalsOk, HeldLocals, Load;
  }

  /** From the entry of a call to its body. */
  lemma CallBegins(x: Ctx, fn: Fn, normal: int, args: seq<W.Value>, s: State) returns (t: State)
    requires Entered(x, fn, normal, args, s)
    ensures Reaches(x.p, s, t) && Function.Ready(x, fn, args, s, t)
  {
    hide *;
    var a := RunEntry(x, fn, normal, args, s);
    var b := RunCall(x, fn, normal, args, s, a);
    t := RunGuard(x, fn, normal, args, s, b);
    ReachesTrans(x.p, s, a, b);
    ReachesTrans(x.p, s, b, t);
  }

  /** From the end of the body to the caller. */
  lemma CallCompletes(x: Ctx, fn: Fn, normal: int, args: seq<W.Value>, s: State, u: State, d: nat) returns (t: State)
    requires Entered(x, fn, normal, args, s) && Completed(x, fn, s, View(x, u, d, ResultWidth(fn)), u)
    ensures Reaches(x.p, u, t) && Back(x, s, t) && Answered(x, fn, u, d, t)
  {
    hide *;
    CallFacts(x, fn, normal, args, s);
    t := RunExit(x, fn, s, View(x, u, d, ResultWidth(fn)), u);
    ToldView(x, fn, u, d, t);
  }

  lemma CallTraps(x: Ctx, fn: Fn, normal: int, args: seq<W.Value>, s: State, u: State) returns (t: State)
    requires Entered(x, fn, normal, args, s) && Trapped(x, fn, s, u)
    ensures Reaches(x.p, u, t) && Back(x, s, t) && Load(t.mem, x.buf, true) == 1
  {
    hide *;
    CallFacts(x, fn, normal, args, s);
    var e := RunRewind(x, fn, s, u);
    t := RunException(x, fn, s, e);
    ReachesTrans(x.p, u, e, t);
  }

  // Two calls: of a function, and of the function with the locals of other rounds behind its own.

  ghost predicate BothEntered(w: Duo, fn: Fn, extra: seq<bool>, args: seq<W.Value>, s: State, s': State) {
    && w.k == |extra| && Entered(w.x, fn, w.normal, args, s) && Entered(w.x', More(fn, extra), w.normal', args, s')
    && OwnDiv(fn.body, BodyAt(fn), Slots(fn), w.normal)
    && OwnDiv(fn.body, BodyAt(More(fn, extra)), Slots(More(fn, extra)), w.normal')
  }

  lemma MoreAt(fn: Fn, extra: seq<bool>)
    requires T.Type(fn.body, [], Widths(fn)).Some?
    ensures BodyAt(More(fn, extra)) == BodyAt(fn) + |extra| && FinalizeAt(More(fn, extra)) == FinalizeAt(fn) + |extra|
  {
    hide T.Type, Length, Slots;
    MoreSlots(fn, extra);
    TypedVars(fn.body, [], Widths(fn), Slots(fn));
    LengthKept(fn.body, Slots(fn), Slots(More(fn, extra)));
  }

  lemma MoreSlots(fn: Fn, extra: seq<bool>)
    ensures |Slots(fn)| <= |Slots(More(fn, extra))| && |Slots(fn)| == |Widths(fn)|
    ensures forall i :: 0 <= i < |Slots(fn)| ==> Slots(More(fn, extra))[i].wide == Slots(fn)[i].wide
  {
    assert Widths(More(fn, extra)) == Widths(fn) + extra;
  }

  lemma FirstSame(w: Duo, vals: seq<W.Value>, vs: seq<W.Value>, m: Mem, m': Mem)
    requires TypesMatch(w.x, vals) && Filled(w.x, m, vals, |vals|)
    requires TypesMatch(w.x', vals + vs) && Filled(w.x', m', vals + vs, |vals + vs|)
    ensures SameLocals(w, m, m')
  {
    forall i | 0 <= i < |w.x.slots|
      ensures w.x'.slots[i].wide == w.x.slots[i].wide
      ensures Load(m', SlotAt(w.x', i), w.x.slots[i].wide) == Load(m, SlotAt(w.x, i), w.x.slots[i].wide)
    {
      assert (vals + vs)[i] == vals[i];
      assert InMemory(m, SlotAt(w.x, i), vals[i]) && InMemory(m', SlotAt(w.x', i), (vals + vs)[i]);
    }
  }

  lemma MoreVals(fn: Fn, extra: seq<bool>, args: seq<W.Value>)
    ensures FirstVals(More(fn, extra), args) == FirstVals(fn, args) + Zeros(extra)
  {}

  lemma StackSame(w: Duo, m: Mem, m': Mem, m1: Mem, m1': Mem)
    requires SameStack(w, m, m') && StackKept(w.x, m, m1) && StackKept(w.x', m', m1')
    ensures SameStack(w, m1, m1')
  {
    forall k | 0 <= k < 2 * W.SLOTS ensures Peek(m1', w.x'.wst + 4 * k) == Peek(m1, w.x.wst + 4 * k) {
      assert Peek(m', w.x'.wst + 4 * k) == Peek(m, w.x.wst + 4 * k);
    }
  }

  /** Two calls with the same operand stacks begin the body with the same. */
  lemma TwinStart(w: Duo, fn: Fn, extra: seq<bool>, args: seq<W.Value>, s: State, s': State, t: State, t': State)
    requires BothEntered(w, fn, extra, args, s, s') && SameStack(w, s.mem, s'.mem)
    requires Function.Ready(w.x, fn, args, s, t) && Function.Ready(w.x', More(fn, extra), args, s', t')
    requires T.Type(fn.body, [], Widths(fn)).Some?
    ensures Beside(w) && Twin(w, t, t', 0) && AtWord(w, t, t', BodyAt(fn)) && SlotWidths(w.x.slots) == Widths(fn)
    ensures BothThen(w, BodyAt(fn), fn.body, FinalizeAt(fn) - 2)
  {
    hide Entered, Function.Ready, OwnDiv, SameStack, SameLocals, Shaped, Separate, T.Type, Slots, Then, TypesMatch,
         Filled, StackKept, FirstVals, Zeros, FinalizeAt, More, Widths;
    MoreAt(fn, extra);
    MoreSlots(fn, extra);
    MoreVals(fn, extra, args);
    SlotTypes(fn);
    MoreBody(fn, extra);
    BodyStarts(w.x, fn, w.normal, args, s, t);
    BodyStarts(w.x', More(fn, extra), w.normal', args, s', t');
    FirstSame(w, FirstVals(fn, args), Zeros(extra), t.mem, t'.mem);
    StackSame(w, s.mem, s'.mem, t.mem, t'.mem);
  }

  lemma MoreBody(fn: Fn, extra: seq<bool>)
    ensures More(fn, extra).body == fn.body && More(fn, extra).results == fn.results
  {}

  /** Both trap, or both complete with as much on the operand stack, which holds the same. */
  ghost predicate BothEnd(w: Duo, fn: Fn, extra: seq<bool>, s: State, s': State, u: State, u': State, d: nat) {
    || (Trapped(w.x, fn, s, u) && Trapped(w.x', More(fn, extra), s', u'))
    || (&& Completed(w.x, fn, s, View(w.x, u, d, ResultWidth(fn)), u)
        && Completed(w.x', More(fn, extra), s', View(w.x', u', d, ResultWidth(fn)), u')
        && SameStack(w, u.mem, u'.mem) && |fn.results| <= d <= W.SLOTS)
  }

  lemma TwinEnds(w: Duo, fn: Fn, extra: seq<bool>, args: seq<W.Value>, s: State, s': State, t: State, t': State,
                 high: nat, u: State, u': State) returns (d: nat)
    requires BothEntered(w, fn, extra, args, s, s') && T.Type(fn.body, [], Widths(fn)).Some?
    requires Function.Ready(w.x, fn, args, s, t) && Function.Ready(w.x', More(fn, extra), args, s', t')
    requires Comes(w, t, t', 0, 0, |fn.results|, high, FinalizeAt(fn) - 2, u, u')
    ensures Reaches(w.x.p, t, u) && Reaches(w.x'.p, t', u') && BothEnd(w, fn, extra, s, s', u, u', d)
  {
    hide Entered, Function.Ready, OwnDiv, SameStack, SameLocals, Shaped, T.Type, Slots, FinalizeAt, BodyAt, Trapped,
         Completed, Goes, Reaches, View, More, ResultWidth;
    MoreAt(fn, extra);
    d := 0;
    if !AtTrap(w, u, u') {
      d :| Twin(w, u, u', d) && |fn.results| <= d;
      ShapedBound(w.x, u, d);
    }
    BodyEnds(w.x, fn, w.normal, args, s, t, u, d, ResultWidth(fn));
    BodyEnds(w.x', More(fn, extra), w.normal', args, s', t', u', d, ResultWidth(fn));
  }

  lemma ShapedBound(x: Ctx, s: State, d: nat)
    requires Shaped(x, s, d)
    ensures d <= W.SLOTS
  {}

  /** The two calls say the same: both trap, or neither does and their results are the same. */
  ghost predicate Alike(w: Duo, fn: Fn, t: State, t': State) {
    && Ended(w.x, t) && Ended(w.x', t') && Load(t'.mem, w.x'.buf, true) == Load(t.mem, w.x.buf, true)
    && (|fn.results| == 1 && Load(t.mem, w.x.buf, true) == 0 ==> t'.regs[0] == t.regs[0])
  }

  lemma AnsweredAlike(w: Duo, fn: Fn, extra: seq<bool>, u: State, u': State, d: nat, t: State, t': State)
    requires Answered(w.x, fn, u, d, t) && Answered(w.x', More(fn, extra), u', d, t')
    requires SameStack(w, u.mem, u'.mem) && |fn.results| <= d <= W.SLOTS
    ensures Alike(w, fn, t, t')
  {
    hide Load, SameStack;
    if |fn.results| == 1 {
      SameHeld(w, u.mem, u'.mem, d, fn.results[0]);
      assert Held(u'.mem, w.x'.wst, d, fn.results[0])[d - 1] == Held(u.mem, w.x.wst, d, fn.results[0])[d - 1];
    }
  }

  lemma TrappedAlike(w: Duo, fn: Fn, t: State, t': State)
    requires Load(t.mem, w.x.buf, true) == 1 == Load(t'.mem, w.x'.buf, true)
    ensures Alike(w, fn, t, t')
  {}

  lemma CallTwins(w: Duo, fn: Fn, extra: seq<bool>, args: seq<W.Value>, s: State, s': State)
    returns (t: State, t': State)
    requires BothEntered(w, fn, extra, args, s, s') && SameStack(w, s.mem, s'.mem) && Suitable(fn)
    ensures Reaches(w.x.p, s, t) && Back(w.x, s, t) && Reaches(w.x'.p, s', t') && Back(w.x', s', t')
    ensures Alike(w, fn, t, t')
  {
    hide *;
    SuitableTypes(fn);
    EnteredBoth(w, fn, extra, args, s, s');
    var a := CallBegins(w.x, fn, w.normal, args, s);
    var a' := CallBegins(w.x', More(fn, extra), w.normal', args, s');
    TwinStart(w, fn, extra, args, s, s', a, a');
    var u, u' := HaltsCode(w, fn.body, BodyAt(fn), FinalizeAt(fn) - 2, a, a', 0, 0, []);
    var d := TwinEnds(w, fn, extra, args, s, s', a, a', T.Left(fn.body, 0), u, u');
    t, t' := CallsEnd(w, fn, extra, args, s, s', u, u', d);
    ReachesTrans(w.x.p, s, a, u);
    ReachesTrans(w.x.p, s, u, t);
    ReachesTrans(w.x'.p, s', a', u');
    ReachesTrans(w.x'.p, s', u', t');
  }

  lemma EnteredBoth(w: Duo, fn: Fn, extra: seq<bool>, args: seq<W.Value>, s: State, s': State)
    requires BothEntered(w, fn, extra, args, s, s')
    ensures Entered(w.x, fn, w.normal, args, s) && Entered(w.x', More(fn, extra), w.normal', args, s')
  {}

  lemma CallsEnd(w: Duo, fn: Fn, extra: seq<bool>, args: seq<W.Value>, s: State, s': State, u: State, u': State, d: nat)
    returns (t: State, t': State)
    requires Entered(w.x, fn, w.normal, args, s) && Entered(w.x', More(fn, extra), w.normal', args, s')
    requires BothEnd(w, fn, extra, s, s', u, u', d)
    ensures Reaches(w.x.p, u, t) && Back(w.x, s, t) && Reaches(w.x'.p, u', t') && Back(w.x', s', t')
    ensures Alike(w, fn, t, t')
  {
    hide Entered, Reaches, Back, Alike, Completed, Trapped, More, View, ResultWidth, SameStack, Answered;
    ResultWidthMore(fn, extra);
    if Trapped(w.x, fn, s, u) && Trapped(w.x', More(fn, extra), s', u') {
      t := CallTraps(w.x, fn, w.normal, args, s, u);
      t' := CallTraps(w.x', More(fn, extra), w.normal', args, s', u');
      TrappedAlike(w, fn, t, t');
    } else {
      t := CallCompletes(w.x, fn, w.normal, args, s, u, d);
      t' := CallCompletes(w.x', More(fn, extra), w.normal', args, s', u', d);
      AnsweredAlike(w, fn, extra, u, u', d, t, t');
    }
  }

  lemma ResultWidthMore(fn: Fn, extra: seq<bool>)
    ensures ResultWidth(More(fn, extra)) == ResultWidth(fn)
  {}

  lemma SuitableTypes(fn: Fn)
    requires Suitable(fn)
    ensures T.Type(fn.body, [], Widths(fn)) == Some(fn.results) && T.Peak(fn.body, 0) <= W.SLOTS
  {}

  // The image.

  function Pair(x: Ctx, x': Ctx, fn: Fn, extra: seq<bool>): Duo {
    Duo(x, x', |extra|, NormalOf(fn), NormalOf(More(fn, extra)))
  }

  lemma BothEnter(x: Ctx, x': Ctx, fn: Fn, extra: seq<bool>, args: seq<W.Value>, s: State, s': State)
    requires Entered(x, fn, NormalOf(fn), args, s) && Entered(x', More(fn, extra), NormalOf(More(fn, extra)), args, s')
    requires Suitable(fn)
    ensures BothEntered(Pair(x, x', fn, extra), fn, extra, args, s, s')
  {
    hide Entered, Suitable, OwnDiv, NormalOf, Slots, BodyAt;
    SuitableDivision(fn);
    MoreSuitable(fn, extra);
    SuitableDivision(More(fn, extra));
  }

  /**
   What a call answers is determined. For every validated function with at most one division and all arguments, with no
   condition on what the `if`s find on the stack or on the operands of divisions: executed from the same contents of the
   operand stack, the images of the function and of the function with more locals, wherever they are placed, come back
   with the same return code and, without a trap, with the same result.
   */
  lemma Twins(p: Program, p': Program, x: Ctx, x': Ctx, fn: Fn, extra: seq<bool>, args: seq<W.Value>, s: State,
              s': State) returns (t: State, t': State)
    requires Called(p, x, fn, NormalOf(fn), args, s) && Suitable(fn)
    requires Called(p', x', More(fn, extra), NormalOf(More(fn, extra)), args, s')
    requires SameStack(Pair(x, x', fn, extra), s.mem, s'.mem)
    ensures Reaches(p, s, t) && Back(x, s, t) && Reaches(p', s', t') && Back(x', s', t')
    ensures Alike(Pair(x, x', fn, extra), fn, t, t')
  {
    hide *;
    PairIs(x, x', fn, extra);
    var u := RunPrefix(p, x, fn, NormalOf(fn), args, s);
    var u' := RunPrefix(p', x', More(fn, extra), NormalOf(More(fn, extra)), args, s');
    BothEnter(x, x', fn, extra, args, u, u');
    t, t' := CallTwins(Pair(x, x', fn, extra), fn, extra, args, u, u');
    Relocated(p, |PrefixCode(args)|, u, t);
    ReachesTrans(p, s, u, t);
    BackFrom(x, s, u, t);
    Relocated(p', |PrefixCode(args)|, u', t');
    ReachesTrans(p', s', u', t');
    BackFrom(x', s', u', t');
  }

  lemma PairIs(x: Ctx, x': Ctx, fn: Fn, extra: seq<bool>)
    ensures Pair(x, x', fn, extra).x == x && Pair(x, x', fn, extra).x' == x'
  {}

  /**
   Every call halts. For every validated function with at most one division and all arguments, with no condition on what
   the `if`s find on the stack or on the operands of divisions, executing the image comes back to its caller with sp,
   x22 to x30 and the rest of memory as they were, and with return code 0 or 1.
   */
  lemma Halts(p: Program, x: Ctx, fn: Fn, args: seq<W.Value>, s: State) returns (t: State)
    requires Called(p, x, fn, NormalOf(fn), args, s) && Suitable(fn)
    ensures Reaches(p, s, t) && Back(x, s, t) && Ended(x, t)
  {
    hide *;
    var none := MoreNone(fn);
    SameAlone(x, fn, none, s);
    var t' := s;
    t, t' := Twins(p, p, x, x, fn, none, args, s, s);
    AlikeEnded(x, fn, none, t, t');
  }

  lemma MoreNone(fn: Fn) returns (none: seq<bool>)
    ensures More(fn, none) == fn
  {
    none := [];
    assert fn.locals + none == fn.locals;
  }

  lemma SameAlone(x: Ctx, fn: Fn, extra: seq<bool>, s: State)
    ensures SameStack(Pair(x, x, fn, extra), s.mem, s.mem)
  {}

  lemma AlikeEnded(x: Ctx, fn: Fn, extra: seq<bool>, t: State, t': State)
    requires Alike(Pair(x, x, fn, extra), fn, t, t')
    ensures Ended(x, t)
  {}
}
