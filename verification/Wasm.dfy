/**
 The integer WebAssembly that the JIT translates, with two semantics. `Ref` is the standard's (sections 4.3.2 and 4.4
 of WebAssembly Core Specification 1.0). `Jit` is what the emitted code does: `if` peeks at its condition and leaves it
 on the stack, `return` does nothing, and `div_u` has the overflow trap of `div_s`.
 */
module Wasm {
  import opened Numbers

  datatype Val = Val(wide: bool, bits: int)

  /** A value of type i64 (`wide`) or i32, as an unsigned number. */
  type Value = v: Val | 0 <= v.bits < Span(v.wide) witness Val(false, 0)

  datatype Cmp = Eq | Ne | LtS | LtU | GtS | GtU | LeS | LeU | GeS | GeU

  datatype Arith = Add | Sub | Mul | DivS | DivU

  type Byte = b: int | 0 <= b < 256

  datatype Op =
    | Nop
    | Return
    | Get(i: nat)
    | Put(i: nat)
    | Tee(i: nat)
    | Const(wide: bool, byte: Byte)
    | Compare(wide: bool, cmp: Cmp)
    | Binary(wide: bool, arith: Arith)

  datatype Block = Void | Yields32 | Yields64

  /** Structured code: what is done first, and the rest. */
  datatype Code =
    | End
    | Do(op: Op, rest: Code)
    | IfThen(block: Block, thn: Code, rest: Code)
    | IfElse(block: Block, thn: Code, els: Code, rest: Code)

  /** The relation that a comparison decides. */
  predicate Holds(cmp: Cmp, wide: bool, a: int, b: int) {
    var sa, sb := SInt(a, wide), SInt(b, wide);
    match cmp
    case Eq => a == b
    case Ne => a != b
    case LtS => sa < sb
    case LtU => a < b
    case GtS => sa > sb
    case GtU => a > b
    case LeS => sa <= sb
    case LeU => a <= b
    case GeS => sa >= sb
    case GeU => a >= b
  }

  function Flag(b: bool): Value { Val(false, if b then 1 else 0) }

  /** The operand pair on which signed division overflows. */
  predicate OverflowPair(wide: bool, a: int, b: int) {
    2 * a == Span(wide) && b == Span(wide) - 1
  }

  /** Whether a division traps, by the standard. */
  predicate RefTraps(arith: Arith, wide: bool, a: int, b: int) {
    match arith
    case DivS => b == 0 || OverflowPair(wide, a, b)
    case DivU => b == 0
    case _ => false
  }

  /** Whether a division traps in the emitted code. */
  predicate JitTraps(arith: Arith, wide: bool, a: int, b: int) {
    (arith.DivS? || arith.DivU?) && (b == 0 || OverflowPair(wide, a, b))
  }

  /** The value of an operation that does not trap. */
  function Result(arith: Arith, wide: bool, a: Value, b: Value): Value
    requires a.wide == wide && b.wide == wide && !RefTraps(arith, wide, a.bits, b.bits)
  {
    match arith
    case Add => Val(wide, Wrap(a.bits + b.bits, wide))
    case Sub => Val(wide, Wrap(a.bits - b.bits, wide))
    case Mul => Val(wide, Wrap(a.bits * b.bits, wide))
    case DivS => Val(wide, Wrap(TruncDiv(SInt(a.bits, wide), SInt(b.bits, wide)), wide))
    case DivU => Val(wide, Wrap(a.bits / b.bits, wide))
  }

  /** The two trap rules differ on one operand pair of unsigned division, at either width. */
  lemma TrapRules(arith: Arith, wide: bool, a: int, b: int)
    ensures JitTraps(arith, wide, a, b) != RefTraps(arith, wide, a, b) <==> arith.DivU? && OverflowPair(wide, a, b)
  {}

  // The emitted code's semantics. A cell is `leaked` once an `if` has peeked at it and left it behind; `touched`
  // records that an instruction has read such a cell again.

  datatype Cell = Cell(v: Value, leaked: bool)

  datatype St = St(stack: seq<Cell>, locals: seq<Value>, touched: bool)

  datatype Outcome = Done(st: St) | Trap(touched: bool) | Stuck | Overflow

  /** The operand stack holds 1024 slots of 8 bytes. */
  const SLOTS := 1024

  /** The top of the stack has the type an instruction needs. */
  predicate Ready(st: St, wide: bool) { |st.stack| > 0 && Top(st).v.wide == wide }

  function Top(st: St): Cell
    requires |st.stack| > 0
  {
    st.stack[|st.stack| - 1]
  }

  function Pop(st: St): St
    requires |st.stack| > 0
  {
    st.(stack := st.stack[..|st.stack| - 1], touched := st.touched || Top(st).leaked)
  }

  function Push(st: St, v: Value): Outcome {
    if |st.stack| < SLOTS then Done(st.(stack := st.stack + [Cell(v, false)])) else Overflow
  }

  /** The second operand is popped first. */
  predicate ReadyTwo(st: St, wide: bool) { Ready(st, wide) && Ready(Pop(st), wide) }

  function JitOp(op: Op, st: St): Outcome {
    match op
    case Nop => Done(st)
    case Return => Done(st)
    case Get(i) => if i < |st.locals| then Push(st, st.locals[i]) else Stuck
    case Put(i) =>
      if i < |st.locals| && Ready(st, st.locals[i].wide) then Done(Pop(st).(locals := st.locals[i := Top(st).v]))
          else Stuck
    case Tee(i) =>
      if i < |st.locals| && Ready(st, st.locals[i].wide) then
        Done(st.(locals := st.locals[i := Top(st).v], touched := st.touched || Top(st).leaked))
      else Stuck
    case Const(wide, byte) => Push(st, Val(wide, byte))
    case Compare(wide, cmp) =>
      if ReadyTwo(st, wide) then Push(Pop(Pop(st)), Flag(Holds(cmp, wide, Top(Pop(st)).v.bits, Top(st).v.bits)))
          else Stuck
    case Binary(wide, arith) =>
      if !ReadyTwo(st, wide) then Stuck
      else
        var a, b, rest := Top(Pop(st)).v, Top(st).v, Pop(Pop(st));
        if JitTraps(arith, wide, a.bits, b.bits) then Trap(rest.touched) else Push(rest, Result(arith, wide, a, b))
  }

  /** `if` reads its i32 condition and leaves it on the stack. */
  function Peeked(st: St): St
    requires |st.stack| > 0
  {
    st.(stack := st.stack[|st.stack| - 1 := Top(st).(leaked := true)], touched := st.touched || Top(st).leaked)
  }

  function Jit(c: Code, st: St): Outcome
    decreases c
  {
    match c
    case End => Done(st)
    case Do(op, rest) =>
      var o := JitOp(op, st);
      if o.Done? then Jit(rest, o.st) else o
    case IfThen(_, thn, rest) =>
      if !Ready(st, false) then Stuck
      else
        var o := if Top(st).v.bits != 0 then Jit(thn, Peeked(st)) else Done(Peeked(st));
        if o.Done? then Jit(rest, o.st) else o
    case IfElse(_, thn, els, rest) =>
      if !Ready(st, false) then Stuck
      else
        var o := if Top(st).v.bits != 0 then Jit(thn, Peeked(st)) else Jit(els, Peeked(st));
        if o.Done? then Jit(rest, o.st) else o
  }

  /** The arm that an `if` runs; without an `else` a zero condition runs none. */
  function JitArm(c: Code, st: St): Outcome
    requires (c.IfThen? || c.IfElse?) && Ready(st, false)
  {
    if Top(st).v.bits != 0 then Jit(c.thn, Peeked(st)) else if c.IfElse? then Jit(c.els, Peeked(st))
        else Done(Peeked(st))
  }

  // The standard's semantics. A block runs on its own part of the operand stack, above the `below` values of the blocks
  // around it. `Seen` observes the run: `lone` as long as every `if` found nothing but its condition on the whole
  // stack, `pair` once a `div_u` has met the overflow pair.

  datatype Seen = Seen(lone: bool, pair: bool)

  datatype RefSt = RefSt(stack: seq<Value>, locals: seq<Value>, below: nat, seen: Seen)

  datatype RefOutcome = RDone(st: RefSt) | RReturn(st: RefSt) | RTrap(seen: Seen) | RStuck

  predicate RefReady(r: RefSt, wide: bool) { |r.stack| > 0 && RefTop(r).wide == wide }

  function RefTop(r: RefSt): Value
    requires |r.stack| > 0
  {
    r.stack[|r.stack| - 1]
  }

  function RefPop(r: RefSt): RefSt
    requires |r.stack| > 0
  {
    r.(stack := r.stack[..|r.stack| - 1])
  }

  function RefPush(r: RefSt, v: Value): RefSt { r.(stack := r.stack + [v]) }

  predicate RefReadyTwo(r: RefSt, wide: bool) { RefReady(r, wide) && RefReady(RefPop(r), wide) }

  function RefOp(op: Op, r: RefSt): RefOutcome {
    match op
    case Nop => RDone(r)
    case Return => RReturn(r)
    case Get(i) => if i < |r.locals| then RDone(RefPush(r, r.locals[i])) else RStuck
    case Put(i) =>
      if i < |r.locals| && RefReady(r, r.locals[i].wide) then RDone(RefPop(r).(locals := r.locals[i := RefTop(r)]))
          else RStuck
    case Tee(i) =>
      if i < |r.locals| && RefReady(r, r.locals[i].wide) then RDone(r.(locals := r.locals[i := RefTop(r)])) else RStuck
    case Const(wide, byte) => RDone(RefPush(r, Val(wide, byte)))
    case Compare(wide, cmp) =>
      if RefReadyTwo(r, wide) then
        RDone(RefPush(RefPop(RefPop(r)), Flag(Holds(cmp, wide, RefTop(RefPop(r)).bits, RefTop(r).bits))))
      else RStuck
    case Binary(wide, arith) =>
      if !RefReadyTwo(r, wide) then RStuck
      else
        var a, b, rest := RefTop(RefPop(r)), RefTop(r), RefPop(RefPop(r));
        var seen := r.seen.(pair := r.seen.pair || (arith.DivU? && OverflowPair(wide, a.bits, b.bits)));
        if RefTraps(arith, wide, a.bits, b.bits) then RTrap(seen)
        else RDone(RefPush(rest, Result(arith, wide, a, b)).(seen := seen))
  }

  /** Entering a block: the condition is consumed and the rest of the stack put out of reach. */
  function Enter(r: RefSt): RefSt
    requires |r.stack| > 0
  {
    var rest := |r.stack| - 1;
    RefSt([], r.locals, r.below + rest, r.seen.(lone := r.seen.lone && r.below + rest == 0))
  }

  /** Leaving it: its values go on top of that rest. */
  function Leave(r: RefSt, inner: RefSt): RefSt
    requires |r.stack| > 0
  {
    inner.(stack := r.stack[..|r.stack| - 1] + inner.stack, below := r.below)
  }

  function Ref(c: Code, r: RefSt): RefOutcome
    decreases c
  {
    match c
    case End => RDone(r)
    case Do(op, rest) =>
      var o := RefOp(op, r);
      if o.RDone? then Ref(rest, o.st) else o
    case IfThen(_, thn, rest) =>
      if !RefReady(r, false) then RStuck
      else
        var o := if RefTop(r).bits != 0 then Ref(thn, Enter(r)) else RDone(Enter(r));
        if o.RDone? then Ref(rest, Leave(r, o.st)) else o
    case IfElse(_, thn, els, rest) =>
      if !RefReady(r, false) then RStuck
      else
        var o := if RefTop(r).bits != 0 then Ref(thn, Enter(r)) else Ref(els, Enter(r));
        if o.RDone? then Ref(rest, Leave(r, o.st)) else o
  }
}
