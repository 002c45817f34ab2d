/**
 When the emitted code's semantics agrees with the standard's: as long as every executed `if` finds nothing but its
 condition on the operand stack, the leaked conditions stay at the bottom and no instruction reads one.
 */
module Agreement {
  import opened Wasm

  /** No `return` in the code: the standard leaves the function there, the emitted code does not. */
  predicate Unreturned(c: Code) {
    match c
    case End => true
    case Do(op, rest) => !op.Return? && Unreturned(rest)
    case IfThen(_, thn, rest) => Unreturned(thn) && Unreturned(rest)
    case IfElse(_, thn, els, rest) => Unreturned(thn) && Unreturned(els) && Unreturned(rest)
  }

  function SeenBy(q: RefOutcome, before: Seen): Seen {
    match q
    case RDone(r) => r.seen
    case RReturn(r) => r.seen
    case RTrap(seen) => seen
    case RStuck => before
  }

  /** The run met neither a crowded `if` nor the overflow pair of an unsigned division. */
  predicate Clean(seen: Seen) { seen.lone && !seen.pair }

  // What a run has seen is never forgotten.

  lemma OpRemembers(op: Op, r: RefSt)
    ensures Clean(SeenBy(RefOp(op, r), r.seen)) ==> Clean(r.seen)
    ensures RefOp(op, r).RDone? ==> RefOp(op, r).st.below == r.below && RefOp(op, r).st.seen.lone == r.seen.lone
  {}

  lemma {:induction false} Remembers(c: Code, r: RefSt)
    ensures Clean(SeenBy(Ref(c, r), r.seen)) ==> Clean(r.seen)
    ensures Ref(c, r).RDone? ==> Ref(c, r).st.below == r.below
    decreases c
  {
    hide RefOp;
    match c
    case End =>
    case Do(op, rest) =>
      OpRemembers(op, r);
      if RefOp(op, r).RDone? {
        Remembers(rest, RefOp(op, r).st);
      }
    case IfThen(_, thn, rest) =>
      if RefReady(r, false) {
        Remembers(thn, Enter(r));
        var o := if RefTop(r).bits != 0 then Ref(thn, Enter(r)) else RDone(Enter(r));
        if o.RDone? {
          Remembers(rest, Leave(r, o.st));
        }
      }
    case IfElse(_, thn, els, rest) =>
      if RefReady(r, false) {
        Remembers(thn, Enter(r));
        Remembers(els, Enter(r));
        var o := if RefTop(r).bits != 0 then Ref(thn, Enter(r)) else Ref(els, Enter(r));
        if o.RDone? {
          Remembers(rest, Leave(r, o.st));
        }
      }
  }

  // Agreement.

  /** The machine's stack is leaked conditions and then the standard's stack; the variables are the same. */
  ghost predicate Atop(st: St, r: RefSt) {
    var leaks := |st.stack| - |r.stack|;
    && 0 <= leaks && st.locals == r.locals && r.below == 0 && !st.touched
    && (forall i :: 0 <= i < leaks ==> st.stack[i].leaked)
    && (forall i :: leaks <= i < |st.stack| ==> st.stack[i] == Cell(r.stack[i - leaks], false))
  }

  /** The outcomes agree, given that the machine's stack did not overflow. */
  ghost predicate Agree(o: Outcome, q: RefOutcome) {
    match q
    case RDone(r) => o.Done? && Atop(o.st, r)
    case RTrap(_) => o.Trap? && !o.touched
    case _ => true
  }

  lemma AtopTop(st: St, r: RefSt)
    requires Atop(st, r) && |r.stack| > 0
    ensures |st.stack| > 0 && Top(st) == Cell(RefTop(r), false) && Atop(Pop(st), RefPop(r))
  {}

  lemma AtopPush(st: St, r: RefSt, v: Value)
    requires Atop(st, r) && |st.stack| < SLOTS
    ensures Push(st, v).Done? && Atop(Push(st, v).st, RefPush(r, v))
  {}

  lemma AgreeTwo(op: Op, st: St, r: RefSt)
    requires Atop(st, r) && (op.Compare? || op.Binary?) && RefReadyTwo(r, op.wide) && !JitOp(op, st).Overflow?
    requires Clean(SeenBy(RefOp(op, r), r.seen))
    ensures Agree(JitOp(op, st), RefOp(op, r))
  {
    AtopTop(st, r);
    AtopTop(Pop(st), RefPop(r));
    var s2, r2 := Pop(Pop(st)), RefPop(RefPop(r));
    if op.Compare? {
      AtopPush(s2, r2, Flag(Holds(op.cmp, op.wide, RefTop(RefPop(r)).bits, RefTop(r).bits)));
    } else if !JitTraps(op.arith, op.wide, RefTop(RefPop(r)).bits, RefTop(r).bits) {
      AtopPush(s2, r2, Result(op.arith, op.wide, RefTop(RefPop(r)), RefTop(r)));
    }
  }

  lemma AgreeOp(op: Op, st: St, r: RefSt)
    requires Atop(st, r) && !op.Return? && !RefOp(op, r).RStuck? && !JitOp(op, st).Overflow?
    requires Clean(SeenBy(RefOp(op, r), r.seen))
    ensures Agree(JitOp(op, st), RefOp(op, r))
  {
    match op
    case Nop =>
    case Return =>
    case Get(i) => AtopPush(st, r, r.locals[i]);
    case Const(wide, byte) => AtopPush(st, r, Val(wide, byte));
    case Put(i) => AtopTop(st, r);
    case Tee(i) => AtopTop(st, r);
    case Compare(_, _) => AgreeTwo(op, st, r);
    case Binary(_, _) => AgreeTwo(op, st, r);
  }

  /** Entering a block whose condition is alone on the stack. */
  lemma AtopEnter(st: St, r: RefSt)
    requires Atop(st, r) && RefReady(r, false) && Enter(r).seen.lone
    ensures Ready(st, false) && Top(st).v == RefTop(r) && Atop(Peeked(st), Enter(r))
  {
    AtopTop(st, r);
  }

  lemma AtopLeave(st: St, r: RefSt, inner: RefSt)
    requires Atop(st, inner) && |r.stack| == 1 && r.below == 0
    ensures Atop(st, Leave(r, inner)) && Leave(r, inner).seen == inner.seen
  {
    assert r.stack[..0] + inner.stack == inner.stack;
  }

  /** The arm of an `if` that the standard runs. */
  function RefArm(c: Code, r: RefSt): RefOutcome
    requires (c.IfThen? || c.IfElse?) && RefReady(r, false)
  {
    if RefTop(r).bits != 0 then Ref(c.thn, Enter(r)) else if c.IfElse? then Ref(c.els, Enter(r)) else RDone(Enter(r))
  }

  lemma IfSteps(c: Code, st: St, r: RefSt)
    requires (c.IfThen? || c.IfElse?) && RefReady(r, false) && Ready(st, false)
    ensures Ref(c, r) == if RefArm(c, r).RDone? then Ref(c.rest, Leave(r, RefArm(c, r).st)) else RefArm(c, r)
    ensures Jit(c, st) == if JitArm(c, st).Done? then Jit(c.rest, JitArm(c, st).st) else JitArm(c, st)
  {}

  lemma ArmRemembers(c: Code, r: RefSt)
    requires (c.IfThen? || c.IfElse?) && RefReady(r, false)
    ensures Clean(SeenBy(RefArm(c, r), Enter(r).seen)) ==> Clean(Enter(r).seen)
    ensures RefArm(c, r).RDone? ==> Clean(SeenBy(Ref(c.rest, Leave(r, RefArm(c, r).st)), RefArm(c, r).st.seen)) ==>
        Clean(RefArm(c, r).st.seen)
  {
    Remembers(c.thn, Enter(r));
    if c.IfElse? {
      Remembers(c.els, Enter(r));
    }
    if RefArm(c, r).RDone? {
      Remembers(c.rest, Leave(r, RefArm(c, r).st));
    }
  }

  lemma {:induction false} AgreeIf(c: Code, st: St, r: RefSt)
    requires (c.IfThen? || c.IfElse?) && Atop(st, r) && Unreturned(c) && !Ref(c, r).RStuck? && !Jit(c, st).Overflow?
    requires Clean(SeenBy(Ref(c, r), r.seen))
    ensures Agree(Jit(c, st), Ref(c, r))
    decreases c, 0
  {
    ArmRemembers(c, r);
    hide Atop, JitOp, RefOp;
    var q := RefArm(c, r);
    AtopEnter(st, r);
    IfSteps(c, st, r);
    if RefTop(r).bits != 0 {
      Agrees(c.thn, Peeked(st), Enter(r));
    } else if c.IfElse? {
      Agrees(c.els, Peeked(st), Enter(r));
    }
    if q.RDone? {
      BelowZero(st, r);
      AtopLeave(JitArm(c, st).st, r, q.st);
      Agrees(c.rest, JitArm(c, st).st, Leave(r, q.st));
    }
  }

  lemma BelowZero(st: St, r: RefSt)
    requires Atop(st, r)
    ensures r.below == 0
  {}

  /**
   For every body and every state: if the standard's run is not stuck, meets no crowded `if` and no overflow pair of an
   unsigned division, and the 1024 slots suffice, the emitted code's run agrees with it.
   */
  lemma {:induction false} Agrees(c: Code, st: St, r: RefSt)
    requires Atop(st, r) && Unreturned(c) && !Ref(c, r).RStuck? && !Jit(c, st).Overflow?
    requires Clean(SeenBy(Ref(c, r), r.seen))
    ensures Agree(Jit(c, st), Ref(c, r))
    decreases c, 1
  {
    match c
    case End =>
    case Do(op, rest) =>
      hide Atop, JitOp, RefOp;
      if RefOp(op, r).RDone? {
        Remembers(rest, RefOp(op, r).st);
      }
      AgreeOp(op, st, r);
      if RefOp(op, r).RDone? {
        Agrees(rest, JitOp(op, st).st, RefOp(op, r).st);
      }
    case _ => AgreeIf(c, st, r);
  }

  // The converse: a crowded `if` leaves a condition above a value, and then the run cannot end without reading it.

  /** The values that the standard's stack has. */
  function Kept(stack: seq<Cell>): (vs: seq<Value>)
    ensures |vs| <= |stack|
  {
    if stack == [] then []
    else
      var top := stack[|stack| - 1];
      Kept(stack[..|stack| - 1]) + (if top.leaked then [] else [top.v])
  }

  /** The two states show the same; `outer` are the values of the blocks around the running one. */
  ghost predicate Same(st: St, r: RefSt, outer: seq<Value>) {
    Kept(st.stack) == outer + r.stack && st.locals == r.locals && |outer| == r.below && !st.touched
  }

  /** A leaked condition lies above a value. */
  ghost predicate Buried(stack: seq<Cell>) {
    exists i, j :: 0 <= i < j < |stack| && !stack[i].leaked && stack[j].leaked
  }

  lemma KeptPush(stack: seq<Cell>, c: Cell)
    ensures Kept(stack + [c]) == Kept(stack) + (if c.leaked then [] else [c.v])
  {
    assert (stack + [c])[..|stack|] == stack;
  }

  lemma BuriedPush(stack: seq<Cell>, c: Cell)
    requires Buried(stack)
    ensures Buried(stack + [c])
  {
    var i, j :| 0 <= i < j < |stack| && !stack[i].leaked && stack[j].leaked;
    assert !(stack + [c])[i].leaked && (stack + [c])[j].leaked;
  }

  lemma BuriedPop(stack: seq<Cell>)
    requires Buried(stack) && !stack[|stack| - 1].leaked
    ensures Buried(stack[..|stack| - 1])
  {
    var i, j :| 0 <= i < j < |stack| && !stack[i].leaked && stack[j].leaked;
    assert j < |stack| - 1 && !stack[..|stack| - 1][i].leaked && stack[..|stack| - 1][j].leaked;
  }

  /** What one step keeps: the shown values agree, and what was buried stays so. */
  ghost predicate Follows(st: St, st': St, r': RefSt, outer: seq<Value>) {
    Same(st', r', outer) && (Buried(st.stack) ==> Buried(st'.stack))
  }

  lemma FollowsTrans(st: St, st': St, r': RefSt, st'': St, r'': RefSt, outer: seq<Value>)
    requires Follows(st, st', r', outer) && Follows(st', st'', r'', outer)
    ensures Follows(st, st'', r'', outer)
  {}

  lemma SamePop(st: St, r: RefSt, outer: seq<Value>)
    requires Same(st, r, outer) && |r.stack| > 0 && |st.stack| > 0 && !Top(st).leaked
    ensures Top(st).v == RefTop(r) && Follows(st, Pop(st), RefPop(r), outer)
  {
    var rest := Kept(st.stack[..|st.stack| - 1]);
    assert (outer + r.stack)[|outer + r.stack| - 1] == RefTop(r);
    assert rest == (outer + r.stack)[..|outer + r.stack| - 1] == outer + r.stack[..|r.stack| - 1];
    if Buried(st.stack) {
      BuriedPop(st.stack);
    }
  }

  lemma SamePush(st: St, r: RefSt, outer: seq<Value>, v: Value)
    requires Same(st, r, outer) && |st.stack| < SLOTS
    ensures Push(st, v).Done? && Follows(st, Push(st, v).st, RefPush(r, v), outer)
  {
    KeptPush(st.stack, Cell(v, false));
    assert outer + (r.stack + [v]) == outer + r.stack + [v];
    if Buried(st.stack) {
      BuriedPush(st.stack, Cell(v, false));
    }
  }

  predicate Untouched(o: Outcome) { o.Done? && !o.st.touched }

  lemma FollowsTwo(op: Op, st: St, r: RefSt, outer: seq<Value>)
    requires Same(st, r, outer) && (op.Compare? || op.Binary?) && RefOp(op, r).RDone? && Untouched(JitOp(op, st))
    ensures Follows(st, JitOp(op, st).st, RefOp(op, r).st, outer)
  {
    SamePop(st, r, outer);
    SamePop(Pop(st), RefPop(r), outer);
    var s2, r2 := Pop(Pop(st)), RefPop(RefPop(r));
    if op.Compare? {
      SamePush(s2, r2, outer, Flag(Holds(op.cmp, op.wide, RefTop(RefPop(r)).bits, RefTop(r).bits)));
    } else {
      SamePush(s2, r2, outer, Result(op.arith, op.wide, RefTop(RefPop(r)), RefTop(r)));
    }
  }

  lemma FollowsOp(op: Op, st: St, r: RefSt, outer: seq<Value>)
    requires Same(st, r, outer) && RefOp(op, r).RDone? && Untouched(JitOp(op, st))
    ensures Follows(st, JitOp(op, st).st, RefOp(op, r).st, outer)
  {
    match op
    case Nop =>
    case Return =>
    case Get(i) => SamePush(st, r, outer, r.locals[i]);
    case Const(wide, byte) => SamePush(st, r, outer, Val(wide, byte));
    case Put(i) => SamePop(st, r, outer);
    case Tee(i) => SamePop(st, r, outer);
    case Compare(_, _) => FollowsTwo(op, st, r, outer);
    case Binary(_, _) => FollowsTwo(op, st, r, outer);
  }

  /** The values around a block that is entered. */
  function Around(r: RefSt, outer: seq<Value>): seq<Value>
    requires |r.stack| > 0
  {
    outer + r.stack[..|r.stack| - 1]
  }

  lemma {:induction false} SomeKept(stack: seq<Cell>)
    requires Kept(stack) != []
    ensures exists i :: 0 <= i < |stack| && !stack[i].leaked
    decreases |stack|
  {
    if stack[|stack| - 1].leaked {
      SomeKept(stack[..|stack| - 1]);
      var i :| 0 <= i < |stack| - 1 && !stack[..|stack| - 1][i].leaked;
      assert !stack[i].leaked;
    }
  }

  /** Peeking at the condition: it is buried unless it was alone. */
  lemma SameEnter(st: St, r: RefSt, outer: seq<Value>)
    requires Same(st, r, outer) && RefReady(r, false) && Ready(st, false) && !Peeked(st).touched
    ensures Top(st).v == RefTop(r) && Follows(st, Peeked(st), Enter(r), Around(r, outer))
    ensures r.seen.lone && !Enter(r).seen.lone ==> Buried(Peeked(st).stack)
  {
    SamePop(st, r, outer);
    var rest := st.stack[..|st.stack| - 1];
    assert Peeked(st).stack == rest + [Top(st).(leaked := true)];
    KeptPush(rest, Top(st).(leaked := true));
    assert Around(r, outer) + [] == Around(r, outer);
    if Buried(rest) {
      BuriedPush(rest, Top(st).(leaked := true));
    }
    if r.below + |r.stack| - 1 > 0 {
      SomeKept(rest);
      var i :| 0 <= i < |rest| && !rest[i].leaked;
      assert !Peeked(st).stack[i].leaked && Peeked(st).stack[|rest|].leaked;
    }
  }

  lemma SameLeave(st: St, st': St, r: RefSt, inner: RefSt, outer: seq<Value>)
    requires |r.stack| > 0 && Follows(st, st', inner, Around(r, outer)) && |outer| == r.below
    ensures Follows(st, st', Leave(r, inner), outer)
  {
    assert outer + (r.stack[..|r.stack| - 1] + inner.stack) == Around(r, outer) + inner.stack;
  }

  // A touched stack stays touched.

  lemma TouchedOp(op: Op, st: St)
    requires st.touched && JitOp(op, st).Done?
    ensures JitOp(op, st).st.touched
  {}

  lemma {:induction false} StaysTouched(c: Code, st: St)
    requires st.touched && Jit(c, st).Done?
    ensures Jit(c, st).st.touched
    decreases c
  {
    hide JitOp;
    match c
    case End =>
    case Do(op, rest) =>
      TouchedOp(op, st);
      StaysTouched(rest, JitOp(op, st).st);
    case IfThen(_, thn, rest) =>
      var o := if Top(st).v.bits != 0 then Jit(thn, Peeked(st)) else Done(Peeked(st));
      if Top(st).v.bits != 0 {
        StaysTouched(thn, Peeked(st));
      }
      StaysTouched(rest, o.st);
    case IfElse(_, thn, els, rest) =>
      var o := if Top(st).v.bits != 0 then Jit(thn, Peeked(st)) else Jit(els, Peeked(st));
      StaysTouched(if Top(st).v.bits != 0 then thn else els, Peeked(st));
      StaysTouched(rest, o.st);
  }

  /** A run that reads no leaked condition shows the standard's values, and a crowded `if` in it leaves one buried. */
  ghost predicate Traces(st: St, r: RefSt, st': St, r': RefSt, outer: seq<Value>) {
    Follows(st, st', r', outer) && (r.seen.lone && !r'.seen.lone ==> Buried(st'.stack))
  }

  lemma TracesTrans(st: St, r: RefSt, st': St, r': RefSt, st'': St, r'': RefSt, outer: seq<Value>)
    requires Traces(st, r, st', r', outer) && Traces(st', r', st'', r'', outer)
    ensures Traces(st, r, st'', r'', outer)
  {
    FollowsTrans(st, st', r', st'', r'', outer);
  }

  lemma OpTraces(op: Op, st: St, r: RefSt, outer: seq<Value>)
    requires Same(st, r, outer) && RefOp(op, r).RDone? && Untouched(JitOp(op, st))
    ensures Traces(st, r, JitOp(op, st).st, RefOp(op, r).st, outer)
  {
    hide Follows, RefOp, JitOp;
    FollowsOp(op, st, r, outer);
    OpRemembers(op, r);
  }

  lemma TracesSame(st: St, r: RefSt, st': St, r': RefSt, outer: seq<Value>)
    requires Traces(st, r, st', r', outer)
    ensures Same(st', r', outer)
  {}

  lemma SeenLeave(r: RefSt, inner: RefSt)
    requires |r.stack| > 0
    ensures Leave(r, inner).seen == inner.seen
  {}

  /** Into a block, through it and out of it. */
  lemma ArmTraces(st: St, r: RefSt, st': St, inner: RefSt, outer: seq<Value>)
    requires Same(st, r, outer) && RefReady(r, false) && Ready(st, false) && !Peeked(st).touched
    requires Traces(Peeked(st), Enter(r), st', inner, Around(r, outer))
    ensures Traces(st, r, st', Leave(r, inner), outer)
  {
    hide Around, Buried, Enter;
    SameEnter(st, r, outer);
    FollowsTrans(st, Peeked(st), Enter(r), st', inner, Around(r, outer));
    SameLeave(st, st', r, inner, outer);
    SeenLeave(r, inner);
  }

  lemma SameStart(st: St, r: RefSt, outer: seq<Value>)
    requires Same(st, r, outer)
    ensures Traces(st, r, st, r, outer)
  {}

  /** A run that ends untouched was untouched throughout. */
  lemma UntouchedArm(c: Code, st: St)
    requires (c.IfThen? || c.IfElse?) && Untouched(Jit(c, st))
    ensures Ready(st, false) && !Peeked(st).touched && Untouched(JitArm(c, st))
        && Untouched(Jit(c.rest, JitArm(c, st).st))
  {
    hide JitOp;
    if JitArm(c, st).Done? && JitArm(c, st).st.touched {
      StaysTouched(c.rest, JitArm(c, st).st);
    }
    if Peeked(st).touched && JitArm(c, st).Done? {
      if Top(st).v.bits != 0 {
        StaysTouched(c.thn, Peeked(st));
      } else if c.IfElse? {
        StaysTouched(c.els, Peeked(st));
      }
    }
  }

  lemma {:induction false} TracedIf(c: Code, st: St, r: RefSt, outer: seq<Value>)
    requires (c.IfThen? || c.IfElse?) && Same(st, r, outer) && Ref(c, r).RDone? && Untouched(Jit(c, st))
    ensures Traces(st, r, Jit(c, st).st, Ref(c, r).st, outer)
    decreases c, 0
  {
    UntouchedArm(c, st);
    IfSteps(c, st, r);
    hide Buried, Around, Same, Traces, Enter, Leave, Peeked, JitOp, RefOp;
    SameEnter(st, r, outer);
    FollowsSame(st, Peeked(st), Enter(r), Around(r, outer));
    if RefTop(r).bits != 0 {
      Traced(c.thn, Peeked(st), Enter(r), Around(r, outer));
    } else if c.IfElse? {
      Traced(c.els, Peeked(st), Enter(r), Around(r, outer));
    } else {
      SameStart(Peeked(st), Enter(r), Around(r, outer));
    }
    var st', r' := JitArm(c, st).st, Leave(r, RefArm(c, r).st);
    ArmTraces(st, r, st', RefArm(c, r).st, outer);
    TracesSame(st, r, st', r', outer);
    Traced(c.rest, st', r', outer);
    TracesTrans(st, r, st', r', Jit(c, st).st, Ref(c, r).st, outer);
  }

  lemma FollowsSame(st: St, st': St, r': RefSt, outer: seq<Value>)
    requires Follows(st, st', r', outer)
    ensures Same(st', r', outer)
  {}

  lemma {:induction false} Traced(c: Code, st: St, r: RefSt, outer: seq<Value>)
    requires Same(st, r, outer) && Ref(c, r).RDone? && Untouched(Jit(c, st))
    ensures Traces(st, r, Jit(c, st).st, Ref(c, r).st, outer)
    decreases c, 1
  {
    hide Same, Traces, JitOp, RefOp;
    match c
    case End => SameStart(st, r, outer);
    case Do(op, rest) =>
      if JitOp(op, st).st.touched {
        StaysTouched(rest, JitOp(op, st).st);
      }
      OpTraces(op, st, r, outer);
      TracesSame(st, r, JitOp(op, st).st, RefOp(op, r).st, outer);
      Traced(rest, JitOp(op, st).st, RefOp(op, r).st, outer);
      TracesTrans(st, r, JitOp(op, st).st, RefOp(op, r).st, Jit(c, st).st, Ref(c, r).st, outer);
    case _ => TracedIf(c, st, r, outer);
  }

  /** The last value popped, if there is one, is not a leaked condition. */
  predicate Fresh(st: St, results: nat) { results > 0 ==> |st.stack| > 0 && !Top(st).leaked }

  lemma BuriedOnTop(st: St)
    requires Buried(st.stack) && |Kept(st.stack)| <= 1
    ensures |Kept(st.stack)| == 1 && !Fresh(st, 1)
  {
    var i, j :| 0 <= i < j < |st.stack| && !st.stack[i].leaked && st.stack[j].leaked;
    var rest := st.stack[..|st.stack| - 1];
    KeptAtLeast(st.stack, i);
    if !Top(st).leaked {
      assert !rest[i].leaked;
      KeptAtLeast(rest, i);
    }
  }

  lemma {:induction false} KeptAtLeast(stack: seq<Cell>, i: nat)
    requires i < |stack| && !stack[i].leaked
    ensures |Kept(stack)| >= 1
    decreases |stack|
  {
    if i < |stack| - 1 {
      KeptAtLeast(stack[..|stack| - 1], i);
    }
  }

  function JitStart(locals: seq<Value>): St { St([], locals, false) }

  function RefStart(locals: seq<Value>): RefSt { RefSt([], locals, 0, Seen(true, false)) }

  /**
   For every body that the standard runs to its end with at most one result, no overflow pair and enough slots: the
   emitted code never reads a leaked condition, not even for the result, exactly when every executed `if` starts with
   only its condition on the standard's stack. Then it agrees with the standard.
   */
  lemma LoneExactly(c: Code, locals: seq<Value>)
    requires Unreturned(c) && Ref(c, RefStart(locals)).RDone? && !Jit(c, JitStart(locals)).Overflow?
    requires !Ref(c, RefStart(locals)).st.seen.pair && |Ref(c, RefStart(locals)).st.stack| <= 1
    ensures
      var r, o := Ref(c, RefStart(locals)).st, Jit(c, JitStart(locals));
      && (r.seen.lone <==> Untouched(o) && Fresh(o.st, |r.stack|))
      && (r.seen.lone ==> Atop(o.st, r))
  {
    var r0, st0 := RefStart(locals), JitStart(locals);
    var r, o := Ref(c, r0).st, Jit(c, st0);
    if r.seen.lone {
      Agrees(c, st0, r0);
    } else if Untouched(o) && Fresh(o.st, |r.stack|) {
      Traced(c, st0, r0, []);
      assert Kept(o.st.stack) == [] + r.stack == r.stack;
      BuriedOnTop(o.st);
    }
  }
}
