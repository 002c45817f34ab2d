/**
 Functions that work on i32 only: the emitted code's run neither gets stuck nor overflows, whatever its `if`s find on
 the stack, because every value that it can pop has the width that it wants.
 */
module Narrow {
  import opened Layout
  import opened Body
  import opened Function
  import opened Correctness
  import H = Halting
  import T = Typing
  import W = Wasm

  predicate NarrowOp(op: W.Op) { op.Const? || op.Compare? || op.Binary? ==> !op.wide }

  predicate NarrowCode(c: W.Code) {
    match c
    case End => true
    case Do(op, rest) => NarrowOp(op) && NarrowCode(rest)
    case IfThen(_, thn, rest) => NarrowCode(thn) && NarrowCode(rest)
    case IfElse(_, thn, els, rest) => NarrowCode(thn) && NarrowCode(els) && NarrowCode(rest)
  }

  predicate AllNarrow(ws: seq<bool>) { forall k :: 0 <= k < |ws| ==> !ws[k] }

  /** Only i32 values, for the variables of the given types. */
  ghost predicate NarrowSt(st: W.St, locals: seq<bool>) {
    && |locals| == |st.locals| && (forall i :: 0 <= i < |locals| ==> locals[i] == st.locals[i].wide)
        && AllNarrow(locals)
    && forall k :: 0 <= k < |st.stack| ==> !st.stack[k].v.wide
  }

  /** An outcome that is regular, and at least as high above `d` as `stack'` above `stack`. */
  ghost predicate Fine(o: W.Outcome, d: nat, stack: nat, stack': nat, high: nat, locals: seq<bool>) {
    && Regular(o)
    && (o.Done? ==> NarrowSt(o.st, locals) && d + stack' <= |o.st.stack| + stack && |o.st.stack| <= high)
  }

  lemma NarrowStep(op: W.Op, st: W.St, high: nat, stack: seq<bool>, locals: seq<bool>)
    requires NarrowOp(op) && NarrowSt(st, locals) && T.TypeOp(op, stack, locals).Some? && |stack| <= |st.stack| <= high
    requires T.Rise(op, high) <= W.SLOTS
    ensures Fine(W.JitOp(op, st), |st.stack|, |stack|, |T.TypeOp(op, stack, locals).value|, T.Rise(op, high), locals)
  {
    hide T.TypeOp, T.Rise;
    H.Steady(op, st, high, stack, locals);
    if W.JitOp(op, st).Done? {
      NarrowKept(op, st, locals);
    }
  }

  lemma NarrowKept(op: W.Op, st: W.St, locals: seq<bool>)
    requires NarrowOp(op) && NarrowSt(st, locals) && W.JitOp(op, st).Done?
    ensures NarrowSt(W.JitOp(op, st).st, locals)
  {}

  lemma PeekedNarrow(st: W.St, locals: seq<bool>)
    requires NarrowSt(st, locals) && |st.stack| > 0
    ensures W.Ready(st, false) && NarrowSt(W.Peeked(st), locals) && |W.Peeked(st).stack| == |st.stack|
  {}

  lemma {:induction false} NarrowRuns(c: W.Code, st: W.St, high: nat, stack: seq<bool>, locals: seq<bool>)
    requires NarrowCode(c) && NarrowSt(st, locals) && T.Type(c, stack, locals).Some? && |stack| <= |st.stack| <= high
    requires T.Peak(c, high) <= W.SLOTS
    ensures Fine(W.Jit(c, st), |st.stack|, |stack|, |T.Type(c, stack, locals).value|, T.Left(c, high), locals)
    decreases c
  {
    hide W.JitOp, T.TypeOp, T.Rise, NarrowSt, T.Drop, NarrowOp;
    match c
    case End =>
    case Do(op, rest) =>
      NarrowStep(op, st, high, stack, locals);
      if W.JitOp(op, st).Done? {
        NarrowRuns(rest, W.JitOp(op, st).st, T.Rise(op, high), T.TypeOp(op, stack, locals).value, locals);
      }
    case IfThen(block, thn, rest) =>
      var more := H.IfTypes(c, stack, locals, high);
      PeekedNarrow(st, locals);
      NarrowRuns(thn, W.Peeked(st), high, [], locals);
      if W.JitArm(c, st).Done? {
        NarrowRuns(rest, W.JitArm(c, st).st, H.ArmLeft(c, high), more, locals);
      }
    case IfElse(block, thn, els, rest) =>
      var more := H.IfTypes(c, stack, locals, high);
      PeekedNarrow(st, locals);
      NarrowRuns(thn, W.Peeked(st), high, [], locals);
      NarrowRuns(els, W.Peeked(st), high, [], locals);
      if W.JitArm(c, st).Done? {
        NarrowRuns(rest, W.JitArm(c, st).st, H.ArmLeft(c, high), more, locals);
      }
  }

  /** Parameters, locals, results and body have no i64. */
  predicate NarrowFn(fn: Fn) { AllNarrow(Widths(fn)) && AllNarrow(fn.results) && NarrowCode(fn.body) }

  /** The emitted code of a validated i32 function runs to its end with a result of the right type, or traps. */
  lemma NarrowRegular(fn: Fn, args: seq<W.Value>)
    requires Suitable(fn) && NarrowFn(fn)
    requires |args| == |fn.params| && forall i :: 0 <= i < |args| ==> args[i].wide == fn.params[i]
    ensures Regular(W.Jit(fn.body, Start(fn, args)))
    ensures W.Jit(fn.body, Start(fn, args)).Done? && |fn.results| == 1 ==>
        W.Ready(W.Jit(fn.body, Start(fn, args)).st, fn.results[0])
  {
    hide W.Jit, T.Type, T.Peak, T.Left, NarrowCode;
    ArgumentTypes(fn, args);
    assert T.Types(FirstVals(fn, args)) == Widths(fn);
    NarrowRuns(fn.body, Start(fn, args), 0, [], Widths(fn));
  }
}
