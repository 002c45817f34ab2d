/**
 Compiling and running the same object again. Each round declares the body's locals once more, behind those of the
 rounds before, and goes on numbering labels; neither changes the answer. Also: a `return` before the final `end`.
 */
module History {
  import Isa
  import opened Machine
  import opened Codegen
  import opened Layout
  import opened Simulation
  import opened Function
  import opened Image
  import opened Agreement
  import opened Typing
  import opened Correctness
  import Emission
  import Stub
  import W = Wasm

  /** The function with the locals of other rounds behind its own. */
  function More(fn: Fn, extra: seq<bool>): Fn { fn.(locals := fn.locals + extra) }

  function Zeros(widths: seq<bool>): (vs: seq<W.Value>)
    ensures |vs| == |widths|
  {
    seq(|widths|, i requires 0 <= i < |widths| => W.Val(widths[i], 0))
  }

  function Wider(r: W.RefSt, vs: seq<W.Value>): W.RefSt { r.(locals := r.locals + vs) }

  function WiderOutcome(q: W.RefOutcome, vs: seq<W.Value>): W.RefOutcome {
    match q case RDone(r) => W.RDone(Wider(r, vs)) case RReturn(r) => W.RReturn(Wider(r, vs)) case _ => q
  }

  lemma OpIgnores(op: W.Op, r: W.RefSt, vs: seq<W.Value>)
    requires !W.RefOp(op, r).RStuck?
    ensures W.RefOp(op, Wider(r, vs)) == WiderOutcome(W.RefOp(op, r), vs)
  {
    match op
    case Put(i) => assert (r.locals + vs)[i := W.RefTop(r)] == r.locals[i := W.RefTop(r)] + vs;
    case Tee(i) => assert (r.locals + vs)[i := W.RefTop(r)] == r.locals[i := W.RefTop(r)] + vs;
    case _ =>
  }

  /** Variables that the code does not know of do not matter, and keep their values. */
  lemma {:induction false} CodeIgnores(c: W.Code, r: W.RefSt, vs: seq<W.Value>)
    requires !W.Ref(c, r).RStuck?
    ensures W.Ref(c, Wider(r, vs)) == WiderOutcome(W.Ref(c, r), vs)
    decreases c
  {
    hide W.RefOp;
    match c
    case End =>
    case Do(op, rest) =>
      OpIgnores(op, r, vs);
      if W.RefOp(op, r).RDone? {
        CodeIgnores(rest, W.RefOp(op, r).st, vs);
      }
    case IfThen(_, thn, rest) =>
      if W.RefTop(r).bits != 0 {
        CodeIgnores(thn, W.Enter(r), vs);
      }
      if RefArm(c, r).RDone? {
        CodeIgnores(rest, W.Leave(r, RefArm(c, r).st), vs);
      }
    case IfElse(_, thn, els, rest) =>
      if W.RefTop(r).bits != 0 {
        CodeIgnores(thn, W.Enter(r), vs);
      } else {
        CodeIgnores(els, W.Enter(r), vs);
      }
      if RefArm(c, r).RDone? {
        CodeIgnores(rest, W.Leave(r, RefArm(c, r).st), vs);
      }
  }

  lemma {:induction false} TypeIgnores(c: W.Code, stack: seq<bool>, locals: seq<bool>, extra: seq<bool>)
    requires Type(c, stack, locals).Some?
    ensures Type(c, stack, locals + extra) == Type(c, stack, locals)
    decreases c
  {
    hide Drop;
    match c
    case End =>
    case Do(op, rest) =>
      assert TypeOp(op, stack, locals + extra) == TypeOp(op, stack, locals);
      TypeIgnores(rest, TypeOp(op, stack, locals).value, locals, extra);
    case IfThen(_, thn, rest) =>
      TypeIgnores(thn, [], locals, extra);
      TypeIgnores(rest, Drop(stack, false, 1).value, locals, extra);
    case IfElse(block, thn, els, rest) =>
      TypeIgnores(thn, [], locals, extra);
      TypeIgnores(els, [], locals, extra);
      TypeIgnores(rest, Drop(stack, false, 1).value + Results(block), locals, extra);
  }

  lemma MoreSuitable(fn: Fn, extra: seq<bool>)
    requires Suitable(fn)
    ensures Suitable(More(fn, extra))
  {
    hide Type, Peak, Emission.Divisions;
    TypeIgnores(fn.body, [], Widths(fn), extra);
    assert Widths(More(fn, extra)) == Widths(fn) + extra;
  }

  lemma MoreRun(fn: Fn, extra: seq<bool>, args: seq<W.Value>)
    requires Suitable(fn) && |args| == |fn.params| && forall i :: 0 <= i < |args| ==> args[i].wide == fn.params[i]
    ensures RefRun(More(fn, extra), args) == WiderOutcome(RefRun(fn, args), Zeros(extra))
  {
    hide W.Ref, Type, Peak, Emission.Divisions;
    var r := RefStart(FirstVals(fn, args));
    ArgumentTypes(fn, args);
    ValidRuns(fn.body, r, [], Widths(fn));
    CodeIgnores(fn.body, r, Zeros(extra));
    assert FirstVals(More(fn, extra), args) == FirstVals(fn, args) + Zeros(extra);
  }

  /**
   A round after any others gives the answer of a fresh object: whatever locals earlier rounds have left behind, the
   code comes back to its caller as `Correctness.Preserved` says, with the return code, the result and the variables of
   the standard's run of the function itself.
   */
  lemma AnyRound(p: Program, x: Ctx, fn: Fn, extra: seq<bool>, args: seq<W.Value>, s: State) returns (t: State)
    requires Called(p, x, More(fn, extra), NormalOf(More(fn, extra)), args, s) && Suitable(fn)
    requires Clean(SeenBy(RefRun(fn, args), W.Seen(true, false)))
    ensures Reaches(p, s, t) && Back(x, s, t)
    ensures
      var q := RefRun(fn, args);
      && (q.RDone? || q.RTrap?)
      && (q.RTrap? ==> Load(t.mem, x.buf, true) == 1)
      && (q.RDone? ==>
        && Load(t.mem, x.buf, true) == 0
        && |q.st.stack| == |fn.results| && (|fn.results| == 1 ==> t.regs[0] == q.st.stack[0].bits)
        && |q.st.locals| <= |x.slots|
        && forall i :: 0 <= i < |q.st.locals| ==> InMemory(t.mem, SlotAt(x, i), q.st.locals[i]))
  {
    hide Called, Suitable, Clean, SeenBy, RefRun, NormalOf, Reaches, Back, Load;
    CalledTypes(p, x, More(fn, extra), NormalOf(More(fn, extra)), args, s);
    MoreSuitable(fn, extra);
    MoreRun(fn, extra, args);
    SeenWider(RefRun(fn, args), Zeros(extra));
    t := Preserved(p, x, More(fn, extra), args, s);
  }

  // The emitted code does not look at other variables either, whatever it finds on the stack.

  function WiderSt(st: W.St, vs: seq<W.Value>): W.St { st.(locals := st.locals + vs) }

  function WiderEnd(o: W.Outcome, vs: seq<W.Value>): W.Outcome { if o.Done? then W.Done(WiderSt(o.st, vs)) else o }

  lemma JitOpIgnores(op: W.Op, st: W.St, vs: seq<W.Value>)
    requires !W.JitOp(op, st).Stuck?
    ensures W.JitOp(op, WiderSt(st, vs)) == WiderEnd(W.JitOp(op, st), vs)
  {
    match op
    case Put(i) => assert (st.locals + vs)[i := W.Top(st).v] == st.locals[i := W.Top(st).v] + vs;
    case Tee(i) => assert (st.locals + vs)[i := W.Top(st).v] == st.locals[i := W.Top(st).v] + vs;
    case _ =>
  }

  lemma {:induction false} JitIgnores(c: W.Code, st: W.St, vs: seq<W.Value>)
    requires !W.Jit(c, st).Stuck?
    ensures W.Jit(c, WiderSt(st, vs)) == WiderEnd(W.Jit(c, st), vs)
    decreases c
  {
    hide W.JitOp;
    match c
    case End =>
    case Do(op, rest) =>
      JitOpIgnores(op, st, vs);
      if W.JitOp(op, st).Done? {
        JitIgnores(rest, W.JitOp(op, st).st, vs);
      }
    case IfThen(_, thn, rest) =>
      if W.Top(st).v.bits != 0 {
        JitIgnores(thn, W.Peeked(st), vs);
      }
      if W.JitArm(c, st).Done? {
        JitIgnores(rest, W.JitArm(c, st).st, vs);
      }
    case IfElse(_, thn, els, rest) =>
      if W.Top(st).v.bits != 0 {
        JitIgnores(thn, W.Peeked(st), vs);
      } else {
        JitIgnores(els, W.Peeked(st), vs);
      }
      if W.JitArm(c, st).Done? {
        JitIgnores(rest, W.JitArm(c, st).st, vs);
      }
  }

  lemma MoreJit(fn: Fn, extra: seq<bool>, args: seq<W.Value>)
    requires !W.Jit(fn.body, Start(fn, args)).Stuck?
    ensures W.Jit(fn.body, Start(More(fn, extra), args)) == WiderEnd(W.Jit(fn.body, Start(fn, args)), Zeros(extra))
  {
    hide W.Jit;
    JitIgnores(fn.body, Start(fn, args), Zeros(extra));
    assert FirstVals(More(fn, extra), args) == FirstVals(fn, args) + Zeros(extra);
  }

  lemma SeenWider(q: W.RefOutcome, vs: seq<W.Value>)
    ensures SeenBy(WiderOutcome(q, vs), W.Seen(true, false)) == SeenBy(q, W.Seen(true, false))
  {}

  // `return` before the final `end`.

  /** The code with a `return` at its end. */
  function WithReturn(c: W.Code): W.Code {
    match c
    case End => W.Do(W.Return, W.End)
    case Do(op, rest) => W.Do(op, WithReturn(rest))
    case IfThen(block, thn, rest) => W.IfThen(block, thn, WithReturn(rest))
    case IfElse(block, thn, els, rest) => W.IfElse(block, thn, els, WithReturn(rest))
  }

  /**
   There it makes no difference: the standard returns where the code would have ended, and nothing is emitted for it.
   */
  lemma {:induction false} ReturnAtEnd(c: W.Code, r: W.RefSt, st: W.St, pos: int, slots: seq<Slot>, normal: int)
    requires Unreturned(c)
    ensures W.Ref(WithReturn(c), r) == if W.Ref(c, r).RDone? then W.RReturn(W.Ref(c, r).st) else W.Ref(c, r)
    ensures W.Jit(WithReturn(c), st) == W.Jit(c, st)
    ensures Length(WithReturn(c), slots) == Length(c, slots)
        && Compile(WithReturn(c), pos, slots, normal) == Compile(c, pos, slots, normal)
    decreases c
  {
    StandardReturn(c, r);
    EmittedReturn(c, st);
    LengthReturn(c, slots);
    CompiledReturn(c, pos, slots, normal);
  }

  lemma {:induction false} StandardReturn(c: W.Code, r: W.RefSt)
    requires Unreturned(c)
    ensures W.Ref(WithReturn(c), r) == if W.Ref(c, r).RDone? then W.RReturn(W.Ref(c, r).st) else W.Ref(c, r)
    decreases c
  {
    match c
    case End =>
    case Do(op, rest) =>
      hide W.RefOp;
      if W.RefOp(op, r).RDone? {
        StandardReturn(rest, W.RefOp(op, r).st);
      }
    case IfThen(_, thn, rest) =>
      if W.RefReady(r, false) {
        NotReturned(thn, W.Enter(r));
        if RefArm(c, r).RDone? {
          StandardReturn(rest, W.Leave(r, RefArm(c, r).st));
        }
      }
    case IfElse(_, thn, els, rest) =>
      if W.RefReady(r, false) {
        NotReturned(thn, W.Enter(r));
        NotReturned(els, W.Enter(r));
        if RefArm(c, r).RDone? {
          StandardReturn(rest, W.Leave(r, RefArm(c, r).st));
        }
      }
  }

  /** Code without `return` does not return early. */
  lemma {:induction false} NotReturned(c: W.Code, r: W.RefSt)
    requires Unreturned(c)
    ensures !W.Ref(c, r).RReturn?
    decreases c
  {
    match c
    case End =>
    case Do(op, rest) =>
      OpNotReturned(op, r);
      hide W.RefOp;
      if W.RefOp(op, r).RDone? {
        NotReturned(rest, W.RefOp(op, r).st);
      }
    case IfThen(_, thn, rest) =>
      if W.RefReady(r, false) {
        NotReturned(thn, W.Enter(r));
        if RefArm(c, r).RDone? {
          NotReturned(rest, W.Leave(r, RefArm(c, r).st));
        }
      }
    case IfElse(_, thn, els, rest) =>
      if W.RefReady(r, false) {
        NotReturned(thn, W.Enter(r));
        NotReturned(els, W.Enter(r));
        if RefArm(c, r).RDone? {
          NotReturned(rest, W.Leave(r, RefArm(c, r).st));
        }
      }
  }

  lemma OpNotReturned(op: W.Op, r: W.RefSt)
    requires !op.Return?
    ensures !W.RefOp(op, r).RReturn?
  {}

  lemma {:induction false} EmittedReturn(c: W.Code, st: W.St)
    ensures W.Jit(WithReturn(c), st) == W.Jit(c, st)
    decreases c
  {
    match c
    case End => assert W.Jit(W.Do(W.Return, W.End), st) == W.Jit(W.End, st);
    case Do(op, rest) =>
      hide W.JitOp;
      if W.JitOp(op, st).Done? {
        EmittedReturn(rest, W.JitOp(op, st).st);
      }
    case _ =>
      if W.Ready(st, false) && W.JitArm(c, st).Done? {
        EmittedReturn(c.rest, W.JitArm(c, st).st);
      }
  }

  lemma {:induction false} LengthReturn(c: W.Code, slots: seq<Slot>)
    ensures Length(WithReturn(c), slots) == Length(c, slots)
    decreases c
  {
    match c
    case End => assert Length(W.Do(W.Return, W.End), slots) == 0 + Length(W.End, slots);
    case Do(op, rest) =>
      hide OpLength;
      LengthReturn(rest, slots);
    case IfThen(_, thn, rest) => LengthReturn(rest, slots);
    case IfElse(_, thn, els, rest) => LengthReturn(rest, slots);
  }

  lemma {:induction false} CompiledReturn(c: W.Code, pos: int, slots: seq<Slot>, normal: int)
    ensures Compile(WithReturn(c), pos, slots, normal) == Compile(c, pos, slots, normal)
    decreases c
  {
    hide Compile, OpLength, Length;
    match c
    case End =>
      NothingEmitted(pos, slots, normal);
    case Do(op, rest) =>
      CompiledReturn(rest, pos + OpLength(op, slots), slots, normal);
      SameRest(c, WithReturn(c), pos, slots, normal);
    case IfThen(_, thn, rest) =>
      CompiledReturn(rest, pos + TEST_LENGTH + Length(thn, slots), slots, normal);
      SameRest(c, WithReturn(c), pos, slots, normal);
    case IfElse(_, thn, els, rest) =>
      CompiledReturn(rest, pos + TEST_LENGTH + (Length(thn, slots) + 1) + Length(els, slots), slots, normal);
      SameRest(c, WithReturn(c), pos, slots, normal);
  }

  /** The word after the first part of a body at word `pos`. */
  function Next(c: W.Code, pos: int, slots: seq<Slot>): int
    requires !c.End?
  {
    match c
    case Do(op, rest) => pos + OpLength(op, slots)
    case IfThen(_, thn, rest) => pos + TEST_LENGTH + Length(thn, slots)
    case IfElse(_, thn, els, rest) => pos + TEST_LENGTH + (Length(thn, slots) + 1) + Length(els, slots)
  }

  /** The code of the first part. */
  function First(c: W.Code, pos: int, slots: seq<Slot>, normal: int): seq<Isa.Instr>
    requires !c.End?
  {
    match c
    case Do(op, _) => OpCode(op, pos, slots, normal)
    case IfThen(_, thn, _) => TestCode(Length(thn, slots)) + Compile(thn, pos + TEST_LENGTH, slots, normal)
    case IfElse(_, thn, els, _) =>
      TestCode(Length(thn, slots) + 1) + Compile(thn, pos + TEST_LENGTH, slots, normal)
          + [Isa.Branch(false, Length(els, slots) + 1)]
      + Compile(els, pos + TEST_LENGTH + (Length(thn, slots) + 1), slots, normal)
  }

  lemma FirstAndRest(c: W.Code, pos: int, slots: seq<Slot>, normal: int)
    requires !c.End?
    ensures Compile(c, pos, slots, normal) ==
        First(c, pos, slots, normal) + Compile(c.rest, Next(c, pos, slots), slots, normal)
  {
    hide OpCode, OpLength, TestCode, Length;
  }

  lemma SameRest(c: W.Code, c': W.Code, pos: int, slots: seq<Slot>, normal: int)
    requires !c.End? && !c'.End? && c' == c.(rest := c'.rest)
    requires Compile(c'.rest, Next(c, pos, slots), slots, normal) == Compile(c.rest, Next(c, pos, slots), slots, normal)
    ensures Compile(c', pos, slots, normal) == Compile(c, pos, slots, normal)
  {
    hide Compile, OpCode, OpLength, TestCode, Length;
    FirstAndRest(c, pos, slots, normal);
    FirstAndRest(c', pos, slots, normal);
  }

  lemma NothingEmitted(pos: int, slots: seq<Slot>, normal: int)
    ensures Compile(W.Do(W.Return, W.End), pos, slots, normal) == [] == Compile(W.End, pos, slots, normal)
  {
    assert Compile(W.Do(W.Return, W.End), pos, slots, normal) == [] + [];
  }

  lemma {:induction false} DivsReturn(c: W.Code, pos: nat, slots: seq<Slot>)
    ensures Emission.Divs(WithReturn(c), pos, slots) == Emission.Divs(c, pos, slots)
    decreases c
  {
    hide Emission.Divs, Length, OpLength;
    match c
    case End => ReturnNoDivs(pos, slots);
    case Do(op, rest) =>
      DivsReturn(rest, pos + OpLength(op, slots), slots);
      SameDivs(c, WithReturn(c), pos, pos + OpLength(op, slots), slots);
    case IfThen(_, thn, rest) =>
      DivsReturn(rest, pos + TEST_LENGTH + Length(thn, slots), slots);
      SameDivs(c, WithReturn(c), pos, pos + TEST_LENGTH + Length(thn, slots), slots);
    case IfElse(_, thn, els, rest) =>
      var next := pos + TEST_LENGTH + (Length(thn, slots) + 1) + Length(els, slots);
      DivsReturn(rest, next, slots);
      SameDivs(c, WithReturn(c), pos, next, slots);
  }

  /** The divisions of the first part. */
  function FirstDivs(c: W.Code, pos: nat, slots: seq<Slot>): seq<nat>
    requires !c.End?
  {
    match c
    case Do(op, _) => Emission.OpDivs(op, pos)
    case IfThen(_, thn, _) => Emission.Divs(thn, pos + TEST_LENGTH, slots)
    case IfElse(_, thn, els, _) =>
      Emission.Divs(thn, pos + TEST_LENGTH, slots)
          + Emission.Divs(els, pos + TEST_LENGTH + (Length(thn, slots) + 1), slots)
  }

  lemma DivsFirst(c: W.Code, pos: nat, next: nat, slots: seq<Slot>)
    requires !c.End? && next == Next(c, pos, slots)
    ensures Emission.Divs(c, pos, slots) == FirstDivs(c, pos, slots) + Emission.Divs(c.rest, next, slots)
  {
    hide Length, OpLength, Emission.OpDivs;
  }

  lemma SameDivs(c: W.Code, c': W.Code, pos: nat, next: nat, slots: seq<Slot>)
    requires !c.End? && !c'.End? && c' == c.(rest := c'.rest) && next == Next(c, pos, slots)
    requires Emission.Divs(c'.rest, next, slots) == Emission.Divs(c.rest, next, slots)
    ensures Emission.Divs(c', pos, slots) == Emission.Divs(c, pos, slots)
  {
    hide Emission.Divs, Length, OpLength, Emission.OpDivs;
    DivsFirst(c, pos, next, slots);
    DivsFirst(c', pos, next, slots);
  }

  lemma ReturnNoDivs(pos: nat, slots: seq<Slot>)
    ensures Emission.Divs(W.Do(W.Return, W.End), pos, slots) == [] == Emission.Divs(W.End, pos, slots)
  {
    assert Emission.Divs(W.End, pos + OpLength(W.Return, slots), slots) == [];
  }

  /** The function whose body has a `return` before its final `end`. */
  function Returning(fn: Fn): Fn { fn.(body := WithReturn(fn.body)) }

  lemma ReturningSlots(fn: Fn)
    ensures Slots(Returning(fn)) == Slots(fn) && BodyAt(Returning(fn)) == BodyAt(fn)
        && Frame(Returning(fn)) == Frame(fn)
    ensures Extent(Returning(fn)) == Extent(fn) && EntryCode(Returning(fn)) == EntryCode(fn)
        && GuardCode(Returning(fn)) == GuardCode(fn)
    ensures FinalizeCode(Returning(fn)) == FinalizeCode(fn)
  {
    SlotsOfShape(fn);
    SlotsOfShape(Returning(fn));
    assert Returning(fn).(body := W.End) == fn.(body := W.End);
  }

  lemma ReturningCode(fn: Fn, normal: int)
    ensures FnCode(Returning(fn), normal) == FnCode(fn, normal) && NormalOf(Returning(fn)) == NormalOf(fn)
  {
    hide Stub.StubCode, Stub.ReturnCode, EntryCode, GuardCode, FinalizeCode, Slots, Frame, Compile, Length,
         Emission.Divs, WithReturn;
    ReturningSlots(fn);
    CompiledReturn(fn.body, BodyAt(fn), Slots(fn), normal);
    LengthReturn(fn.body, Slots(fn));
    DivsReturn(fn.body, BodyAt(fn), Slots(fn));
  }

  lemma ReturningCalled(p: Program, x: Ctx, fn: Fn, args: seq<W.Value>, s: State)
    requires Called(p, x, Returning(fn), NormalOf(Returning(fn)), args, s)
    ensures Called(p, x, fn, NormalOf(fn), args, s)
  {
    hide FnCode, NormalOf, Slots, Frame, Extent, PrefixCode, Separate;
    ReturningSlots(fn);
    ReturningCode(fn, NormalOf(fn));
  }

  lemma ReturningRun(fn: Fn, args: seq<W.Value>)
    requires Unreturned(fn.body)
    ensures RefRun(Returning(fn), args) == if RefRun(fn, args).RDone? then W.RReturn(RefRun(fn, args).st)
        else RefRun(fn, args)
  {
    hide W.Ref;
    StandardReturn(fn.body, RefStart(FirstVals(fn, args)));
    assert FirstVals(Returning(fn), args) == FirstVals(fn, args);
  }

  /**
   `Correctness.Preserved` for bodies that end in `return`: what the standard returns with there is what the call comes
   back with.
   */
  lemma ReturnPreserved(p: Program, x: Ctx, fn: Fn, args: seq<W.Value>, s: State) returns (t: State)
    requires Called(p, x, Returning(fn), NormalOf(Returning(fn)), args, s) && Suitable(fn)
    requires Clean(SeenBy(RefRun(Returning(fn), args), W.Seen(true, false)))
    ensures Reaches(p, s, t) && Back(x, s, t)
    ensures
      var q := RefRun(Returning(fn), args);
      && (q.RReturn? || q.RTrap?)
      && Matches(x, fn, if q.RReturn? then W.RDone(q.st) else q, t)
  {
    hide Called, Suitable, Clean, RefRun, NormalOf, Reaches, Back, Matches, Returning;
    ReturningCalled(p, x, fn, args, s);
    SuitableUnreturned(fn);
    ReturningRun(fn, args);
    t := Preserved(p, x, fn, args, s);
    MatchesEnds(x, fn, RefRun(fn, args), t);
  }

  lemma SuitableUnreturned(fn: Fn)
    requires Suitable(fn)
    ensures Unreturned(fn.body)
  {
    ValidUnreturned(fn.body, [], Widths(fn));
  }

  lemma MatchesEnds(x: Ctx, fn: Fn, q: W.RefOutcome, t: State)
    requires Matches(x, fn, q, t)
    ensures q.RDone? || q.RTrap?
  {}
}
