/**
 Validation of the integer fragment (chapter 3 of WebAssembly Core Specification 1.0), types being widths: what it
 accepts never gets stuck, and how deep the stack gets.
 */
module Typing {
  import opened Numbers
  import opened Wasm
  import opened Agreement

  function Results(block: Block): seq<bool> {
    match block case Void => [] case Yields32 => [false] case Yields64 => [true]
  }

  /** The stack after taking off `n` values of the given width. */
  function Drop(stack: seq<bool>, wide: bool, n: nat): Option<seq<bool>>
    decreases n
  {
    if n == 0 then Some(stack)
    else if |stack| == 0 || stack[|stack| - 1] != wide then None
    else Drop(stack[..|stack| - 1], wide, n - 1)
  }

  function Then(o: Option<seq<bool>>, more: seq<bool>): Option<seq<bool>> {
    if o.Some? then Some(o.value + more) else None
  }

  function TypeOp(op: Op, stack: seq<bool>, locals: seq<bool>): Option<seq<bool>> {
    match op
    case Nop => Some(stack)
    case Return => None
    case Get(i) => if i < |locals| then Some(stack + [locals[i]]) else None
    case Put(i) => if i < |locals| then Drop(stack, locals[i], 1) else None
    case Tee(i) => if i < |locals| then Then(Drop(stack, locals[i], 1), [locals[i]]) else None
    case Const(wide, _) => Some(stack + [wide])
    case Compare(wide, _) => Then(Drop(stack, wide, 2), [false])
    case Binary(wide, _) => Then(Drop(stack, wide, 2), [wide])
  }

  /** The types on the stack after the code, if it is valid. */
  function Type(c: Code, stack: seq<bool>, locals: seq<bool>): Option<seq<bool>>
    decreases c
  {
    match c
    case End => Some(stack)
    case Do(op, rest) =>
      var o := TypeOp(op, stack, locals);
      if o.Some? then Type(rest, o.value, locals) else None
    case IfThen(block, thn, rest) =>
      var o := Drop(stack, false, 1);
      if o.Some? && Results(block) == [] && Type(thn, [], locals) == Some([]) then Type(rest, o.value, locals) else None
    case IfElse(block, thn, els, rest) =>
      var o := Drop(stack, false, 1);
      if o.Some? && Type(thn, [], locals) == Some(Results(block)) && Type(els, [], locals) == Some(Results(block)) then
        Type(rest, o.value + Results(block), locals)
      else None
  }

  // What is accepted, in the standard's terms: the operands that an instruction takes and the results that it gives.

  /** The operands, if the instruction is in the fragment and its variable is there. */
  function Takes(op: Op, locals: seq<bool>): Option<seq<bool>> {
    match op
    case Nop => Some([])
    case Return => None
    case Get(i) => if i < |locals| then Some([]) else None
    case Put(i) => if i < |locals| then Some([locals[i]]) else None
    case Tee(i) => if i < |locals| then Some([locals[i]]) else None
    case Const(_, _) => Some([])
    case Compare(wide, _) => Some([wide, wide])
    case Binary(wide, _) => Some([wide, wide])
  }

  function Gives(op: Op, locals: seq<bool>): seq<bool> {
    match op
    case Get(i) => if i < |locals| then [locals[i]] else []
    case Tee(i) => if i < |locals| then [locals[i]] else []
    case Const(wide, _) => [wide]
    case Compare(_, _) => [false]
    case Binary(wide, _) => [wide]
    case _ => []
  }

  lemma DropBack(rest: seq<bool>, wide: bool, taken: seq<bool>)
    requires 1 <= |taken| <= 2 && forall k :: 0 <= k < |taken| ==> taken[k] == wide
    ensures Drop(rest + taken, wide, |taken|) == Some(rest)
  {
    var s := rest + taken;
    assert s[..|s| - 1] == rest + taken[..|taken| - 1];
    if |taken| == 2 {
      assert (rest + [wide])[..|rest|] == rest && taken[..1] == [wide];
      assert Drop(rest + [wide], wide, 1) == Drop(rest, wide, 0);
    } else {
      assert s[..|s| - 1] == rest;
      assert Drop(rest, wide, 0) == Some(rest);
    }
  }

  lemma Dropped(stack: seq<bool>, wide: bool, taken: seq<bool>)
    requires 1 <= |taken| <= 2 && forall k :: 0 <= k < |taken| ==> taken[k] == wide
    requires Drop(stack, wide, |taken|).Some?
    ensures |stack| >= |taken| && stack == stack[..|stack| - |taken|] + taken
        && Drop(stack, wide, |taken|) == Some(stack[..|stack| - |taken|])
  {
    var less := stack[..|stack| - 1];
    assert Drop(stack, wide, |taken|) == Drop(less, wide, |taken| - 1);
    if |taken| == 2 {
      assert Drop(less, wide, 1) == Drop(less[..|less| - 1], wide, 0) == Some(less[..|less| - 1]);
      assert less[..|less| - 1] == stack[..|stack| - 2];
    } else {
      assert Drop(less, wide, 0) == Some(less);
    }
  }

  /** An instruction is accepted exactly on a stack that ends in its operands, and replaces them by its results. */
  lemma OpExactly(op: Op, stack: seq<bool>, locals: seq<bool>, t: seq<bool>)
    ensures TypeOp(op, stack, locals) == Some(t) <==>
      exists rest :: Takes(op, locals).Some? && stack == rest + Takes(op, locals).value && t == rest + Gives(op, locals)
  {
    if Takes(op, locals).Some? {
      var taken := Takes(op, locals).value;
      forall rest | stack == rest + taken ensures TypeOp(op, stack, locals) == Some(rest + Gives(op, locals)) {
        if taken == [] {
          assert stack == rest && rest + [] == rest;
        } else {
          DropBack(rest, taken[0], taken);
          assert rest + [] == rest;
        }
      }
      if TypeOp(op, stack, locals) == Some(t) {
        if taken != [] {
          Dropped(stack, taken[0], taken);
        }
        assert stack == stack[..|stack| - |taken|] + taken;
        assert t == stack[..|stack| - |taken|] + Gives(op, locals);
      }
    }
  }

  /**
   An `if` is accepted exactly on a stack that ends in an i32, with arms that leave the block's results from an empty
   stack; without an `else` there are none.
   */
  lemma IfExactly(block: Block, thn: Code, els: Code, rest: Code, stack: seq<bool>, locals: seq<bool>)
    ensures
      var arm := Type(thn, [], locals) == Some(Results(block));
      var condition := |stack| > 0 && stack[|stack| - 1] == false;
      && Type(IfThen(block, thn, rest), stack, locals) ==
         (if condition && arm && block == Void then Type(rest, stack[..|stack| - 1], locals) else None)
      && Type(IfElse(block, thn, els, rest), stack, locals) ==
         (if condition && arm && Type(els, [], locals) == Some(Results(block))
          then Type(rest, stack[..|stack| - 1] + Results(block), locals) else None)
  {
    if |stack| > 0 && stack[|stack| - 1] == false {
      assert Drop(stack[..|stack| - 1], false, 0) == Some(stack[..|stack| - 1]);
    }
  }

  function Types(vs: seq<Value>): (ts: seq<bool>)
    ensures |ts| == |vs| && forall i :: 0 <= i < |vs| ==> ts[i] == vs[i].wide
  {
    seq(|vs|, i requires 0 <= i < |vs| => vs[i].wide)
  }

  /** A state of the given types. */
  ghost predicate Has(r: RefSt, stack: seq<bool>, locals: seq<bool>) {
    Types(r.stack) == stack && Types(r.locals) == locals
  }

  /** An outcome that is not stuck, and of the given types when the code ran to its end. */
  ghost predicate Sound(q: RefOutcome, stack: seq<bool>, locals: seq<bool>) {
    !q.RStuck? && !q.RReturn? && (q.RDone? ==> Has(q.st, stack, locals))
  }

  lemma DropOne(r: RefSt, stack: seq<bool>, locals: seq<bool>, wide: bool)
    requires Has(r, stack, locals) && Drop(stack, wide, 1).Some?
    ensures RefReady(r, wide) && Has(RefPop(r), Drop(stack, wide, 1).value, locals)
  {
    assert Drop(stack[..|stack| - 1], wide, 0) == Some(stack[..|stack| - 1]);
  }

  lemma DropTwo(r: RefSt, stack: seq<bool>, locals: seq<bool>, wide: bool)
    requires Has(r, stack, locals) && Drop(stack, wide, 2).Some?
    ensures RefReadyTwo(r, wide) && Has(RefPop(RefPop(r)), Drop(stack, wide, 2).value, locals)
  {
    var less := stack[..|stack| - 1];
    assert Drop(stack, wide, 2) == Drop(less, wide, 1);
    assert Drop(stack, wide, 1) == Some(less) by { assert Drop(less, wide, 0) == Some(less); }
    DropOne(r, stack, locals, wide);
    DropOne(RefPop(r), less, locals, wide);
  }

  lemma Pushing(r: RefSt, stack: seq<bool>, locals: seq<bool>, v: Value)
    requires Has(r, stack, locals)
    ensures Has(RefPush(r, v), stack + [v.wide], locals)
  {}

  lemma SoundTwo(op: Op, r: RefSt, stack: seq<bool>, locals: seq<bool>)
    requires Has(r, stack, locals) && (op.Compare? || op.Binary?) && TypeOp(op, stack, locals).Some?
    ensures Sound(RefOp(op, r), TypeOp(op, stack, locals).value, locals)
  {
    DropTwo(r, stack, locals, op.wide);
    var rest := RefPop(RefPop(r));
    if op.Compare? {
      Pushing(rest, Drop(stack, op.wide, 2).value, locals,
          Flag(Holds(op.cmp, op.wide, RefTop(RefPop(r)).bits, RefTop(r).bits)));
    } else if !RefTraps(op.arith, op.wide, RefTop(RefPop(r)).bits, RefTop(r).bits) {
      Pushing(rest, Drop(stack, op.wide, 2).value, locals, Result(op.arith, op.wide, RefTop(RefPop(r)), RefTop(r)));
    }
  }

  lemma SoundOp(op: Op, r: RefSt, stack: seq<bool>, locals: seq<bool>)
    requires Has(r, stack, locals) && TypeOp(op, stack, locals).Some?
    ensures Sound(RefOp(op, r), TypeOp(op, stack, locals).value, locals)
  {
    match op
    case Nop =>
    case Get(i) => Pushing(r, stack, locals, r.locals[i]);
    case Const(wide, byte) => Pushing(r, stack, locals, Val(wide, byte));
    case Put(i) => DropOne(r, stack, locals, locals[i]);
    case Tee(i) =>
      DropOne(r, stack, locals, locals[i]);
      assert stack == Drop(stack, locals[i], 1).value + [locals[i]];
    case Compare(_, _) => SoundTwo(op, r, stack, locals);
    case Binary(_, _) => SoundTwo(op, r, stack, locals);
  }

  lemma Leaving(r: RefSt, inner: RefSt, stack: seq<bool>, more: seq<bool>, locals: seq<bool>)
    requires Has(r, stack, locals) && Drop(stack, false, 1).Some? && Has(inner, more, locals)
    ensures RefReady(r, false) && Has(Leave(r, inner), Drop(stack, false, 1).value + more, locals)
  {
    DropOne(r, stack, locals, false);
  }

  lemma SoundArm(c: Code, r: RefSt, stack: seq<bool>, locals: seq<bool>)
    requires (c.IfThen? || c.IfElse?) && Has(r, stack, locals) && Type(c, stack, locals).Some?
    requires RefReady(r, false) && Sound(RefArm(c, r), Results(c.block), locals)
    requires RefArm(c, r).RDone? ==>
      Sound(Ref(c.rest, Leave(r, RefArm(c, r).st)), Type(c, stack, locals).value, locals)
    ensures Sound(Ref(c, r), Type(c, stack, locals).value, locals)
  {
    hide RefOp, Has, Type;
  }

  /** Valid code never gets stuck, and leaves values of the types that validation says. */
  lemma {:induction false} ValidRuns(c: Code, r: RefSt, stack: seq<bool>, locals: seq<bool>)
    requires Has(r, stack, locals) && Type(c, stack, locals).Some?
    ensures Sound(Ref(c, r), Type(c, stack, locals).value, locals)
    decreases c
  {
    hide RefOp, TypeOp;
    match c
    case End =>
    case Do(op, rest) =>
      SoundOp(op, r, stack, locals);
      if RefOp(op, r).RDone? {
        ValidRuns(rest, RefOp(op, r).st, TypeOp(op, stack, locals).value, locals);
      }
    case IfThen(block, thn, rest) =>
      DropOne(r, stack, locals, false);
      ValidRuns(thn, Enter(r), [], locals);
      if RefArm(c, r).RDone? {
        Leaving(r, RefArm(c, r).st, stack, [], locals);
        assert Drop(stack, false, 1).value + [] == Drop(stack, false, 1).value;
        ValidRuns(rest, Leave(r, RefArm(c, r).st), Drop(stack, false, 1).value, locals);
      }
      SoundArm(c, r, stack, locals);
    case IfElse(block, thn, els, rest) =>
      DropOne(r, stack, locals, false);
      ValidRuns(thn, Enter(r), [], locals);
      ValidRuns(els, Enter(r), [], locals);
      if RefArm(c, r).RDone? {
        Leaving(r, RefArm(c, r).st, stack, Results(block), locals);
        ValidRuns(rest, Leave(r, RefArm(c, r).st), Drop(stack, false, 1).value + Results(block), locals);
      }
      SoundArm(c, r, stack, locals);
  }

  lemma {:induction false} ValidUnreturned(c: Code, stack: seq<bool>, locals: seq<bool>)
    requires Type(c, stack, locals).Some?
    ensures Unreturned(c)
    decreases c
  {
    hide Drop;
    match c
    case End =>
    case Do(op, rest) => ValidUnreturned(rest, TypeOp(op, stack, locals).value, locals);
    case IfThen(_, thn, rest) =>
      ValidUnreturned(thn, [], locals);
      ValidUnreturned(rest, Drop(stack, false, 1).value, locals);
    case IfElse(block, thn, els, rest) =>
      ValidUnreturned(thn, [], locals);
      ValidUnreturned(els, [], locals);
      ValidUnreturned(rest, Drop(stack, false, 1).value + Results(block), locals);
  }

  // What a run has seen, from the types alone.

  /** At every `if` the stack has only the condition; blocks then begin with nothing below them. */
  predicate Alone(c: Code, stack: seq<bool>, locals: seq<bool>)
    decreases c
  {
    match c
    case End => true
    case Do(op, rest) => TypeOp(op, stack, locals).Some? && Alone(rest, TypeOp(op, stack, locals).value, locals)
    case IfThen(_, thn, rest) => |stack| == 1 && Alone(thn, [], locals) && Alone(rest, [], locals)
    case IfElse(block, thn, els, rest) =>
      |stack| == 1 && Alone(thn, [], locals) && Alone(els, [], locals) && Alone(rest, Results(block), locals)
  }

  lemma AloneOp(op: Op, r: RefSt)
    ensures RefOp(op, r).RDone? ==> RefOp(op, r).st.seen.lone == r.seen.lone && RefOp(op, r).st.below == r.below
    ensures RefOp(op, r).RTrap? ==> RefOp(op, r).seen.lone == r.seen.lone
  {}

  lemma AloneEnter(r: RefSt)
    requires |r.stack| == 1 && r.below == 0
    ensures Enter(r).below == 0 && Enter(r).seen.lone == r.seen.lone && Enter(r).stack == []
        && Enter(r).locals == r.locals
  {}

  /** Then every run finds only the condition at every `if` that it executes. */
  lemma {:induction false} AloneSeen(c: Code, r: RefSt, stack: seq<bool>, locals: seq<bool>)
    requires Has(r, stack, locals) && Type(c, stack, locals).Some? && Alone(c, stack, locals) && r.below == 0
        && r.seen.lone
    ensures SeenBy(Ref(c, r), r.seen).lone && (Ref(c, r).RDone? ==> Ref(c, r).st.below == 0)
    decreases c
  {
    hide RefOp, TypeOp;
    match c
    case End =>
    case Do(op, rest) =>
      SoundOp(op, r, stack, locals);
      AloneOp(op, r);
      if RefOp(op, r).RDone? {
        AloneSeen(rest, RefOp(op, r).st, TypeOp(op, stack, locals).value, locals);
      }
    case IfThen(block, thn, rest) =>
      DropOne(r, stack, locals, false);
      AloneEnter(r);
      ValidRuns(thn, Enter(r), [], locals);
      AloneSeen(thn, Enter(r), [], locals);
      if RefArm(c, r).RDone? {
        AloneLeave(r, RefArm(c, r).st, stack, [], locals);
        AloneSeen(rest, Leave(r, RefArm(c, r).st), [], locals);
      }
    case IfElse(block, thn, els, rest) =>
      DropOne(r, stack, locals, false);
      AloneEnter(r);
      ValidRuns(thn, Enter(r), [], locals);
      ValidRuns(els, Enter(r), [], locals);
      AloneSeen(thn, Enter(r), [], locals);
      AloneSeen(els, Enter(r), [], locals);
      if RefArm(c, r).RDone? {
        AloneLeave(r, RefArm(c, r).st, stack, Results(block), locals);
        AloneSeen(rest, Leave(r, RefArm(c, r).st), Results(block), locals);
      }
  }

  lemma AloneLeave(r: RefSt, inner: RefSt, stack: seq<bool>, more: seq<bool>, locals: seq<bool>)
    requires Has(r, stack, locals) && |stack| == 1 && Drop(stack, false, 1).Some? && Has(inner, more, locals)
    ensures Has(Leave(r, inner), more, locals) && Leave(r, inner).below == r.below && Leave(r, inner).seen == inner.seen
  {
    Leaving(r, inner, stack, more, locals);
    assert Drop(stack, false, 1).value + more == more;
  }

  /** The code has no unsigned division. */
  predicate SignedOnly(c: Code) {
    match c
    case End => true
    case Do(op, rest) => !(op.Binary? && op.arith.DivU?) && SignedOnly(rest)
    case IfThen(_, thn, rest) => SignedOnly(thn) && SignedOnly(rest)
    case IfElse(_, thn, els, rest) => SignedOnly(thn) && SignedOnly(els) && SignedOnly(rest)
  }

  lemma SignedOp(op: Op, r: RefSt)
    requires !(op.Binary? && op.arith.DivU?)
    ensures SeenBy(RefOp(op, r), r.seen).pair == r.seen.pair
  {}

  lemma {:induction false} SignedSeen(c: Code, r: RefSt)
    requires SignedOnly(c)
    ensures SeenBy(Ref(c, r), r.seen).pair == r.seen.pair
    decreases c
  {
    hide RefOp;
    match c
    case End =>
    case Do(op, rest) =>
      SignedOp(op, r);
      if RefOp(op, r).RDone? {
        SignedSeen(rest, RefOp(op, r).st);
      }
    case IfThen(_, thn, rest) =>
      if RefReady(r, false) {
        SignedSeen(thn, Enter(r));
        if RefArm(c, r).RDone? {
          SignedSeen(rest, Leave(r, RefArm(c, r).st));
        }
      }
    case IfElse(_, thn, els, rest) =>
      if RefReady(r, false) {
        SignedSeen(thn, Enter(r));
        SignedSeen(els, Enter(r));
        if RefArm(c, r).RDone? {
          SignedSeen(rest, Leave(r, RefArm(c, r).st));
        }
      }
  }

  // Depth.

  function Max(a: nat, b: nat): nat { if a >= b then a else b }

  /** The height after an instruction. */
  function Rise(op: Op, d: nat): nat {
    if op.Get? || op.Const? then d + 1 else if (op.Put? || op.Compare? || op.Binary?) && d > 0 then d - 1 else d
  }

  /** The greatest height that code can leave from height `d`; every `if` leaves its condition. */
  function Left(c: Code, d: nat): nat
    decreases c
  {
    match c
    case End => d
    case Do(op, rest) => Left(rest, Rise(op, d))
    case IfThen(_, thn, rest) => Left(rest, Max(Left(thn, d), d))
    case IfElse(_, thn, els, rest) => Left(rest, Max(Left(thn, d), Left(els, d)))
  }

  /** The greatest height on the way. */
  function Peak(c: Code, d: nat): (h: nat)
    ensures h >= d
    decreases c
  {
    match c
    case End => d
    case Do(op, rest) => Max(d, Peak(rest, Rise(op, d)))
    case IfThen(_, thn, rest) => Max(Peak(thn, d), Peak(rest, Max(Left(thn, d), d)))
    case IfElse(_, thn, els, rest) => Max(Max(Peak(thn, d), Peak(els, d)), Peak(rest, Max(Left(thn, d), Left(els, d))))
  }

  lemma DepthOp(op: Op, st: St, d: nat)
    requires |st.stack| <= d && Rise(op, d) <= SLOTS
    ensures !JitOp(op, st).Overflow? && (JitOp(op, st).Done? ==> |JitOp(op, st).st.stack| <= Rise(op, d))
  {}

  /** Code whose greatest height is at most 1024 does not overflow the operand stack, leaked conditions included. */
  lemma {:induction false} DepthBounded(c: Code, st: St, d: nat)
    requires |st.stack| <= d && Peak(c, d) <= SLOTS
    ensures !Jit(c, st).Overflow? && (Jit(c, st).Done? ==> |Jit(c, st).st.stack| <= Left(c, d))
    decreases c
  {
    hide JitOp, Rise;
    match c
    case End =>
    case Do(op, rest) =>
      DepthOp(op, st, d);
      if JitOp(op, st).Done? {
        DepthBounded(rest, JitOp(op, st).st, Rise(op, d));
      }
    case IfThen(_, thn, rest) =>
      if Ready(st, false) {
        DepthBounded(thn, Peeked(st), d);
        if JitArm(c, st).Done? {
          DepthBounded(rest, JitArm(c, st).st, Max(Left(thn, d), d));
        }
      }
    case IfElse(_, thn, els, rest) =>
      if Ready(st, false) {
        DepthBounded(thn, Peeked(st), d);
        DepthBounded(els, Peeked(st), d);
        if JitArm(c, st).Done? {
          DepthBounded(rest, JitArm(c, st).st, Max(Left(thn, d), Left(els, d)));
        }
      }
  }
}
