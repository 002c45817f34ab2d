/**
 Where the emitted code departs from the standard: inputs that show each hypothesis of `Correctness.Preserved` is
 needed.
 */
module Limits {
  import opened Numbers
  import opened Isa
  import opened Machine
  import opened Codegen
  import opened Layout
  import opened Simulation
  import opened Body
  import opened Function
  import opened Image
  import opened Agreement
  import E = Emission
  import T = Typing
  import W = Wasm

  // An `if` that finds a value under its condition.

  /** i32.const 7, i32.const 1, if, end: the standard's result is 7. */
  const CROWDED := W.Do(W.Const(false, 7), W.Do(W.Const(false, 1), W.IfThen(W.Void, W.End, W.End)))

  /** The leaked condition is on top of the machine's stack and is returned instead. */
  lemma LeakedResult()
    ensures W.Ref(CROWDED, RefStart([])).RDone? && W.Ref(CROWDED, RefStart([])).st.stack == [W.Val(false, 7)]
    ensures W.Jit(CROWDED, JitStart([])).Done? && |W.Jit(CROWDED, JitStart([])).st.stack| > 0
        && W.Top(W.Jit(CROWDED, JitStart([])).st) == W.Cell(W.Val(false, 1), true)
  {
    var one := W.Do(W.Const(false, 1), W.IfThen(W.Void, W.End, W.End));
    var branch := W.IfThen(W.Void, W.End, W.End);
    var r1 := W.RefPush(RefStart([]), W.Val(false, 7));
    var r2 := W.RefPush(r1, W.Val(false, 1));
    assert W.Ref(CROWDED, RefStart([])) == W.Ref(one, r1) == W.Ref(branch, r2);
    assert r2.stack == [W.Val(false, 7), W.Val(false, 1)] && r2.stack[..1] == [W.Val(false, 7)];
    assert W.Ref(branch, r2) == W.Ref(W.End, W.Leave(r2, W.Enter(r2)));
    var s1 := W.Push(JitStart([]), W.Val(false, 7)).st;
    var s2 := W.Push(s1, W.Val(false, 1)).st;
    assert W.Jit(CROWDED, JitStart([])) == W.Jit(one, s1) == W.Jit(branch, s2);
    assert W.Jit(branch, s2) == W.Jit(W.End, W.Peeked(s2));
  }

  lemma CrowdedValid()
    ensures T.Type(CROWDED, [], []) == Some([false])
  {
    var branch := W.IfThen(W.Void, W.End, W.End);
    assert [] + [false] == [false] && [false] + [false] == [false, false] && [false, false][..1] == [false];
    assert T.Drop([false, false], false, 1) == T.Drop([false], false, 0);
    assert T.Type(branch, [false, false], []) == T.Type(W.End, [false], []);
    assert T.Type(W.Do(W.Const(false, 1), branch), [false], []) == T.Type(branch, [false, false], []);
  }

  lemma CrowdedOwn(pos: int, normal: int)
    ensures OwnDiv(CROWDED, pos, [], normal)
  {
    hide OpLength, Length;
  }

  /** A call of that function, which is valid, returns 1 without a trap. */
  lemma LeakedReturned(p: Program, x: Ctx, normal: int, s: State) returns (t: State)
    requires Called(p, x, Fn([], [], [false], CROWDED), normal, [], s)
    ensures T.Type(CROWDED, [], []) == Some([false])
    ensures Reaches(p, s, t) && Back(x, s, t) && Load(t.mem, x.buf, true) == 0 && t.regs[0] == 1
  {
    hide *;
    var fn := Fn([], [], [false], CROWDED);
    CrowdedValid();
    LeakedResult();
    CrowdedOwn(BodyAt(fn), normal);
    CrowdedStart();
    t := ImageCorrect(p, x, fn, normal, [], s);
    LeakTold(x, fn, W.Jit(CROWDED, JitStart([])), t);
  }

  lemma CrowdedStart()
    ensures
      var fn := Fn([], [], [false], CROWDED);
      Slots(fn) == [] && Start(fn, []) == JitStart([])
          && (W.Jit(CROWDED, JitStart([])).Done? ==> Regular(W.Jit(fn.body, Start(fn, []))))
  {
    hide W.Jit;
    assert FirstVals(Fn([], [], [false], CROWDED), []) == [];
  }

  lemma LeakTold(x: Ctx, fn: Fn, o: W.Outcome, t: State)
    requires Tells(x, fn, o, t) && fn.results == [false] && o.Done? && |o.st.stack| > 0
        && W.Top(o.st) == W.Cell(W.Val(false, 1), true)
    ensures Load(t.mem, x.buf, true) == 0 && t.regs[0] == 1
  {
    hide Load, LocalsOk;
  }

  // Unsigned division.

  /** local.get 0, local.get 1, div_u. */
  function DivideUnsigned(wide: bool): W.Code { W.Do(W.Get(0), W.Do(W.Get(1), W.Do(W.Binary(wide, W.DivU), W.End))) }

  /**
   For all operands of `div_u`, at both widths, the emitted code and the standard agree on trapping or on the quotient,
   except on one pair, on which the standard gives 0 and the emitted code traps.
   */
  lemma UnsignedDivision(wide: bool, a: W.Value, b: W.Value)
    requires a.wide == wide && b.wide == wide
    ensures
      var q, o := W.Ref(DivideUnsigned(wide), RefStart([a, b])), W.Jit(DivideUnsigned(wide), JitStart([a, b]));
      && (q.RTrap? <==> b.bits == 0)
      && (q.RDone? ==> q.st.stack == [W.Val(wide, Wrap(a.bits / b.bits, wide))])
      && (o.Trap? <==> b.bits == 0 || W.OverflowPair(wide, a.bits, b.bits))
      && (o.Done? ==> o.st.stack == [W.Cell(W.Val(wide, Wrap(a.bits / b.bits, wide)), false)])
      && (q.RDone? || q.RTrap?) && (o.Done? || o.Trap?)
  {
    hide W.Ref, W.Jit, W.RefOp, W.JitOp, W.OverflowPair;
    StandardUnsigned(wide, a, b);
    EmittedUnsigned(wide, a, b);
  }

  lemma StandardUnsigned(wide: bool, a: W.Value, b: W.Value)
    requires a.wide == wide && b.wide == wide
    ensures
      var q := W.Ref(DivideUnsigned(wide), RefStart([a, b]));
      if b.bits == 0 then q.RTrap? else q.RDone? && q.st.stack == [W.Val(wide, Wrap(a.bits / b.bits, wide))]
  {
    var c2 := W.Do(W.Binary(wide, W.DivU), W.End);
    var r1 := W.RefPush(RefStart([a, b]), a);
    var r2 := W.RefPush(r1, b);
    assert W.Ref(DivideUnsigned(wide), RefStart([a, b])) == W.Ref(W.Do(W.Get(1), c2), r1) == W.Ref(c2, r2);
    assert r2.stack == [a, b] && r2.stack[..1] == [a] && W.RefPop(W.RefPop(r2)).stack == [];
  }

  lemma EmittedUnsigned(wide: bool, a: W.Value, b: W.Value)
    requires a.wide == wide && b.wide == wide
    ensures
      var o := W.Jit(DivideUnsigned(wide), JitStart([a, b]));
      if b.bits == 0 || W.OverflowPair(wide, a.bits, b.bits) then o.Trap?
      else o.Done? && o.st.stack == [W.Cell(W.Val(wide, Wrap(a.bits / b.bits, wide)), false)]
  {
    hide W.JitTraps, W.Result, W.OverflowPair;
    var c2 := W.Do(W.Binary(wide, W.DivU), W.End);
    var s1 := W.Push(JitStart([a, b]), a).st;
    var s2 := W.Push(s1, b).st;
    assert W.Jit(DivideUnsigned(wide), JitStart([a, b])) == W.Jit(W.Do(W.Get(1), c2), s1) == W.Jit(c2, s2);
    EmittedQuotient(wide, a, b, s2);
  }

  lemma EmittedQuotient(wide: bool, a: W.Value, b: W.Value, st: W.St)
    requires a.wide == wide && b.wide == wide && st.stack == [W.Cell(a, false), W.Cell(b, false)]
    ensures
      var o := W.Jit(W.Do(W.Binary(wide, W.DivU), W.End), st);
      if b.bits == 0 || W.OverflowPair(wide, a.bits, b.bits) then o.Trap?
      else o.Done? && o.st.stack == [W.Cell(W.Val(wide, Wrap(a.bits / b.bits, wide)), false)]
  {
    assert st.stack[..1] == [W.Cell(a, false)] && W.Pop(W.Pop(st)).stack == [];
    if W.JitTraps(W.DivU, wide, a.bits, b.bits) {
      DivisionOutcome(st, wide, W.DivU);
    } else {
      BinaryDone(st, wide, W.DivU);
      assert [] + [W.Cell(W.Result(W.DivU, wide, a, b), false)] == [W.Cell(W.Result(W.DivU, wide, a, b), false)];
    }
  }

  // Two divisions.

  const ONCE := W.Do(W.Const(false, 8), W.Do(W.Const(false, 2), W.Do(W.Binary(false, W.DivS), W.End)))

  const AGAIN := W.Do(W.Const(false, 2), W.Do(W.Binary(false, W.DivS), W.End))

  /** 8 divided by 2, divided by 2 again. */
  const TWICE := W.Do(W.Const(false, 8), W.Do(W.Const(false, 2), W.Do(W.Binary(false, W.DivS), AGAIN)))

  /** The machine is after the first division with one value on the stack; its label is at word `normal`. */
  ghost predicate Looping(x: Ctx, pos: nat, s: State) {
    && Separate(x) && x.slots == [] && s.pc == At(x, pos)
    && exists v: W.Value :: !v.wide && Inv(x, s, [v], [])
  }

  /** From there the machine comes back after some steps. */
  lemma LoopOnce(x: Ctx, pos: nat, normal: nat, s: State) returns (n: nat, t: State)
    requires Looping(x, pos, s) && normal + 3 == pos
    requires CodeAt(x.p, pos, ConstCode(false, 2)) && CodeAt(x.p, pos + 4, DivCode(false, W.DivS, pos + 4, normal))
    requires CodeAt(x.p, normal, [ArithInstr(false, W.DivS)] + PushCode(false, 11))
    ensures n > 0 && Run(x.p, s, n) == Some(t) && Looping(x, pos, t)
  {
    hide CodeAt, Separate, Inv, DivCode, ConstCode, PushCode, ArithInstr, Keeps, OperandsCode, CheckCode, Run, Step;
    var v: W.Value :| !v.wide && Inv(x, s, [v], []);
    var two := W.Val(false, 2);
    var u := ExecConst(x, s, [v], [], false, 2);
    ConstFacts();
    ReachesCode(x.p, pos, ConstCode(false, 2), s, u);
    assert [v] + [two] == [v, two];
    DivParts(x.p, false, W.DivS, pos + 4, normal);
    var w := ReachDecision(x, u, [v, two], [], false, pos + 4, normal);
    assert [v, two][..0] == [];
    t := ExecArith(x, w, [], [], false, W.DivS, v, two);
    QuotientPlain();
    ReachesCode(x.p, normal, [ArithInstr(false, W.DivS)] + PushCode(false, 11), w, t);
    ReachesTrans(x.p, u, w, t);
    var k: nat :| Run(x.p, s, k) == Some(u);
    var m: nat :| Run(x.p, u, m) == Some(t);
    RunAdd(x.p, s, k, m);
    StandStill(x.p, s, k, u);
    n := k + m;
    assert [] + [W.Result(W.DivS, false, v, two)] == [W.Result(W.DivS, false, v, two)];
  }

  lemma ConstFacts()
    ensures |ConstCode(false, 2)| == 4 && forall i | i in ConstCode(false, 2) :: !IsBranch(i)
  {}

  lemma QuotientPlain()
    ensures forall i | i in [ArithInstr(false, W.DivS)] + PushCode(false, 11) :: !IsBranch(i)
  {}

  lemma StandStill(p: Program, s: State, k: nat, t: State)
    requires Run(p, s, k) == Some(t) && t.pc != s.pc
    ensures k > 0
  {}

  lemma {:induction false} RunShorter(p: Program, s: State, k: nat, n: nat)
    requires Run(p, s, n).Some? && k <= n
    ensures Run(p, s, k).Some?
    decreases k
  {
    hide Step;
    if k > 0 {
      RunShorter(p, Step(p, s).value, k - 1, n - 1);
    }
  }

  /** So it never stops. */
  lemma {:induction false} LoopForever(x: Ctx, pos: nat, normal: nat, s: State, k: nat)
    requires Looping(x, pos, s) && normal + 3 == pos
    requires CodeAt(x.p, pos, ConstCode(false, 2)) && CodeAt(x.p, pos + 4, DivCode(false, W.DivS, pos + 4, normal))
    requires CodeAt(x.p, normal, [ArithInstr(false, W.DivS)] + PushCode(false, 11))
    ensures Run(x.p, s, k).Some?
    decreases k
  {
    hide *;
    var n, t := LoopOnce(x, pos, normal, s);
    if k <= n {
      RunShorter(x.p, s, k, n);
    } else {
      LoopForever(x, pos, normal, t, k - n);
      RunAdd(x.p, s, n, k - n);
    }
  }

  /** The standard's result is 2. */
  lemma TwiceDivided()
    ensures W.Ref(TWICE, RefStart([])).RDone? && W.Ref(TWICE, RefStart([])).st.stack == [W.Val(false, 2)]
  {
    var two, four, eight := W.Val(false, 2), W.Val(false, 4), W.Val(false, 8);
    var r0 := RefStart([]);
    var c1 := W.Do(W.Const(false, 2), W.Do(W.Binary(false, W.DivS), AGAIN));
    assert W.Ref(TWICE, r0) == W.Ref(c1, r0.(stack := [eight])) by { assert [] + [eight] == [eight]; }
    DividedStep(r0, eight, two, four, AGAIN);
    DividedStep(r0, four, two, two, W.End);
  }

  lemma DividedStep(r: W.RefSt, a: W.Value, b: W.Value, q: W.Value, rest: W.Code)
    requires r == RefStart([]) && !a.wide && b == W.Val(false, 2) && 0 <= a.bits <= 8 && q == W.Val(false, a.bits / 2)
    ensures W.Ref(W.Do(W.Const(false, 2), W.Do(W.Binary(false, W.DivS), rest)), r.(stack := [a])) ==
        W.Ref(rest, r.(stack := [q]))
  {
    var div := W.Do(W.Binary(false, W.DivS), rest);
    assert [a] + [b] == [a, b] && [a, b][..1] == [a] && [a][..0] == [] && [] + [q] == [q];
    assert W.Ref(W.Do(W.Const(false, 2), div), r.(stack := [a])) == W.Ref(div, r.(stack := [a, b]));
    assert W.Result(W.DivS, false, a, b) == q;
  }

  lemma TwicePlaced(p: Program, pos: nat)
    requires CodeAt(p, pos, Compile(TWICE, pos, [], pos + 23))
    ensures CodeAt(p, pos, Compile(ONCE, pos, [], pos + 23)) && OwnDiv(ONCE, pos, [], pos + 23)
        && Length(ONCE, []) == 26
    ensures CodeAt(p, pos + 26, ConstCode(false, 2)) && CodeAt(p, pos + 30, DivCode(false, W.DivS, pos + 30, pos + 23))
    ensures CodeAt(p, pos + 23, [ArithInstr(false, W.DivS)] + PushCode(false, 11))
  {
    var normal := pos + 23;
    var a, b, c := ConstCode(false, 8), ConstCode(false, 2), DivCode(false, W.DivS, pos + 8, normal);
    var d, f := ConstCode(false, 2), DivCode(false, W.DivS, pos + 30, normal);
    TwiceCode(pos);
    hide Compile, CodeAt, DivCode, ConstCode;
    CodeLengths(pos + 8, normal);
    CodeAtFive(p, pos, pos + 4, pos + 8, pos + 26, pos + 30, a, b, c, d, f);
    CodeAtSplit(p, pos, a + b + c, d + f);
    DivParts(p, false, W.DivS, pos + 8, normal);
    OnceOwn(pos);
  }

  lemma CodeLengths(pos: nat, normal: nat)
    ensures |ConstCode(false, 8)| == 4 && |ConstCode(false, 2)| == 4 && |DivCode(false, W.DivS, pos, normal)| == 18
  {
    DivCodeLength(false, W.DivS, pos, normal);
  }

  lemma TwiceCode(pos: nat)
    ensures
      var a, b, c := ConstCode(false, 8), ConstCode(false, 2), DivCode(false, W.DivS, pos + 8, pos + 23);
      var d, f := ConstCode(false, 2), DivCode(false, W.DivS, pos + 30, pos + 23);
      && Compile(TWICE, pos, [], pos + 23) == a + b + c + d + f == a + b + c + (d + f)
      && Compile(ONCE, pos, [], pos + 23) == a + b + c
  {
    hide DivCode, ConstCode, Compile;
    var n := pos + 23;
    var div, last := W.Binary(false, W.DivS), W.Do(W.Binary(false, W.DivS), W.End);
    var f := DivCode(false, W.DivS, pos + 30, n);
    CompileDo(div, W.End, pos + 30, 18, n);
    CompileDo(W.Const(false, 2), last, pos + 26, 4, n);
    CompileDo(div, AGAIN, pos + 8, 18, n);
    CompileDo(W.Const(false, 2), W.Do(div, AGAIN), pos + 4, 4, n);
    CompileDo(W.Const(false, 8), W.Do(W.Const(false, 2), W.Do(div, AGAIN)), pos, 4, n);
    CompileDo(div, W.End, pos + 8, 18, n);
    CompileDo(W.Const(false, 2), last, pos + 4, 4, n);
    CompileDo(W.Const(false, 8), W.Do(W.Const(false, 2), last), pos, 4, n);
    CompileEnd(pos + 48, n);
    CompileEnd(pos + 26, n);
    Regroup(ConstCode(false, 8), ConstCode(false, 2), DivCode(false, W.DivS, pos + 8, n), ConstCode(false, 2), f);
  }

  lemma CompileDo(op: W.Op, rest: W.Code, pos: int, length: nat, normal: int)
    requires length == OpLength(op, [])
    ensures Compile(W.Do(op, rest), pos, [], normal) ==
        OpCode(op, pos, [], normal) + Compile(rest, pos + length, [], normal)
  {
    hide OpCode, OpLength;
  }

  lemma CompileEnd(pos: int, normal: int)
    ensures Compile(W.End, pos, [], normal) == []
  {}

  lemma Regroup(a: seq<Instr>, b: seq<Instr>, c: seq<Instr>, d: seq<Instr>, e: seq<Instr>)
    ensures a + (b + (c + (d + (e + [])))) == a + b + c + d + e == a + b + c + (d + e)
    ensures a + (b + (c + [])) == a + b + c
  {}

  lemma OnceOwn(pos: nat)
    ensures OwnDiv(ONCE, pos, [], pos + 23) && Length(ONCE, []) == 26
    ensures E.Normal(TWICE, pos, []) == pos + 23
  {
    hide OwnDiv, E.Divs, Length;
    var div, last := W.Binary(false, W.DivS), W.Do(W.Binary(false, W.DivS), W.End);
    DoPieces(div, W.End, pos + 8, 18, pos + 23);
    DoPieces(W.Const(false, 2), last, pos + 4, 4, pos + 23);
    DoPieces(W.Const(false, 8), W.Do(W.Const(false, 2), last), pos, 4, pos + 23);
    EndPieces(pos + 26, pos + 23);
    DoPieces(div, AGAIN, pos + 8, 18, pos + 23);
    DoPieces(W.Const(false, 2), W.Do(div, AGAIN), pos + 4, 4, pos + 23);
    DoPieces(W.Const(false, 8), W.Do(W.Const(false, 2), W.Do(div, AGAIN)), pos, 4, pos + 23);
    var ds := E.Divs(AGAIN, pos + 26, []);
    assert [] + ([] + ([pos + 23] + ds)) == [pos + 23] + ds;
  }

  lemma DoPieces(op: W.Op, rest: W.Code, pos: nat, length: nat, normal: nat)
    requires length == OpLength(op, [])
    ensures Length(W.Do(op, rest), []) == length + Length(rest, [])
    ensures OwnDiv(W.Do(op, rest), pos, [], normal) <==>
        (IsDiv(op) ==> normal == pos + DivLabel(op.wide)) && OwnDiv(rest, pos + length, [], normal)
    ensures E.Divs(W.Do(op, rest), pos, []) == E.OpDivs(op, pos) + E.Divs(rest, pos + length, [])
  {
    hide *;
    DoLength(op, rest);
    DoOwn(op, rest, pos, normal);
    DoDivs(op, rest, pos);
  }

  lemma DoLength(op: W.Op, rest: W.Code)
    ensures Length(W.Do(op, rest), []) == OpLength(op, []) + Length(rest, [])
  {
    hide OpLength;
  }

  lemma DoOwn(op: W.Op, rest: W.Code, pos: nat, normal: nat)
    ensures OwnDiv(W.Do(op, rest), pos, [], normal) <==>
            (IsDiv(op) ==> normal == pos + DivLabel(op.wide)) && OwnDiv(rest, pos + OpLength(op, []), [], normal)
  {
    hide OpLength, Length, DivLabel;
  }

  lemma DoDivs(op: W.Op, rest: W.Code, pos: nat)
    ensures E.Divs(W.Do(op, rest), pos, []) == E.OpDivs(op, pos) + E.Divs(rest, pos + OpLength(op, []), [])
  {
    hide OpLength, Length, E.OpDivs;
  }

  lemma EndPieces(pos: nat, normal: nat)
    ensures OwnDiv(W.End, pos, [], normal) && Length(W.End, []) == 0
  {}

  /** The first division itself is done well. */
  lemma OnceDivided()
    ensures W.Jit(ONCE, W.St([], [], false)) == W.Done(W.St([W.Cell(W.Val(false, 4), false)], [], false))
  {
    var st := W.St([], [], false);
    var eight, two, four := W.Cell(W.Val(false, 8), false), W.Cell(W.Val(false, 2), false),
        W.Cell(W.Val(false, 4), false);
    var last := W.Do(W.Binary(false, W.DivS), W.End);
    hide W.JitOp;
    Constant(st, 8);
    Constant(st.(stack := [eight]), 2);
    assert [] + [eight] == [eight] && [eight] + [two] == [eight, two];
    Quarter(st.(stack := [eight, two]));
    assert W.Jit(last, st.(stack := [eight, two])) == W.Jit(W.End, st.(stack := [four]));
    assert W.Jit(W.Do(W.Const(false, 2), last), st.(stack := [eight])) == W.Jit(last, st.(stack := [eight, two]));
    assert W.Jit(ONCE, st) == W.Jit(W.Do(W.Const(false, 2), last), st.(stack := [eight]));
  }

  lemma Constant(st: W.St, byte: W.Byte)
    requires |st.stack| < W.SLOTS
    ensures W.JitOp(W.Const(false, byte), st) == W.Done(st.(stack := st.stack + [W.Cell(W.Val(false, byte), false)]))
  {}

  lemma Quarter(st: W.St)
    requires st == W.St([W.Cell(W.Val(false, 8), false), W.Cell(W.Val(false, 2), false)], [], false)
    ensures W.JitOp(W.Binary(false, W.DivS), st) == W.Done(st.(stack := [W.Cell(W.Val(false, 4), false)]))
  {
    assert st.stack[..1] == [W.Cell(W.Val(false, 8), false)] && W.Pop(W.Pop(st)).stack == [];
    BinaryDone(st, false, W.DivS);
    assert [] + [W.Cell(W.Val(false, 4), false)] == [W.Cell(W.Val(false, 4), false)];
  }

  /** The whole body with two divisions runs for ever, wherever it is placed. */
  lemma TwiceHangs(x: Ctx, pos: nat, s: State, k: nat)
    requires Separate(x) && x.slots == [] && Sees(x, s, W.St([], [], false)) && s.pc == At(x, pos)
    requires CodeAt(x.p, pos, Compile(TWICE, pos, [], E.Normal(TWICE, pos, [])))
    ensures Run(x.p, s, k).Some?
  {
    hide CodeAt, Compile, Separate, Run, Inv, OwnDiv, W.Jit, E.Normal, DivCode, ConstCode, PushCode, Length;
    OnceOwn(pos);
    TwicePlaced(x.p, pos);
    OnceDivided();
    var t := RunCode(x, ONCE, pos, pos + 26, pos + 23, s, W.St([], [], false));
    assert Vals([W.Cell(W.Val(false, 4), false)]) == [W.Val(false, 4)];
    HangsLater(x, pos + 26, pos + 23, s, t, k);
  }

  lemma HangsLater(x: Ctx, pos: nat, normal: nat, s: State, t: State, k: nat)
    requires Reaches(x.p, s, t) && Looping(x, pos, t) && normal + 3 == pos
    requires CodeAt(x.p, pos, ConstCode(false, 2)) && CodeAt(x.p, pos + 4, DivCode(false, W.DivS, pos + 4, normal))
    requires CodeAt(x.p, normal, [ArithInstr(false, W.DivS)] + PushCode(false, 11))
    ensures Run(x.p, s, k).Some?
  {
    hide CodeAt, Looping, DivCode, ConstCode, PushCode, ArithInstr, Run;
    var n: nat :| Run(x.p, s, n) == Some(t);
    if k <= n {
      RunShorter(x.p, s, k, n);
    } else {
      LoopForever(x, pos, normal, t, k - n);
      RunAdd(x.p, s, n, k - n);
    }
  }

  /** A call of the function with two divisions never comes back, although the standard gives 2. */
  lemma TwoDivisionsHang(p: Program, x: Ctx, s: State, k: nat)
    requires Called(p, x, Fn([], [], [false], TWICE), E.Normal(TWICE, BodyAt(Fn([], [], [false], TWICE)), []), [], s)
    ensures Run(p, s, k).Some?
  {
    hide *;
    var fn := Fn([], [], [false], TWICE);
    var normal := E.Normal(TWICE, BodyAt(fn), []);
    var u := RunPrefix(p, x, fn, normal, [], s);
    var a := RunEntry(x, fn, normal, [], u);
    var b := RunCall(x, fn, normal, [], u, a);
    var c := RunGuard(x, fn, normal, [], u, b);
    CallFacts(x, fn, normal, [], u);
    ReadySees(x, fn, normal, [], u, c);
    NoSlots();
    ReachesTrans(x.p, u, a, b);
    ReachesTrans(x.p, u, b, c);
    ReadyPc(x, fn, u, c);
    HangsBehind(p, x, fn, s, u, c, k);
  }

  lemma NoSlots()
    ensures Slots(Fn([], [], [false], TWICE)) == [] && Start(Fn([], [], [false], TWICE), []) == W.St([], [], false)
  {
    assert FirstVals(Fn([], [], [false], TWICE), []) == [];
  }

  lemma ReadyPc(x: Ctx, fn: Fn, s: State, t: State)
    requires Ready(x, fn, [], s, t)
    ensures t.pc == At(x, BodyAt(fn))
  {}

  /** What runs for ever in the function runs for ever in the image. */
  lemma HangsBehind(p: Program, x: Ctx, fn: Fn, s: State, u: State, c: State, k: nat)
    requires fn == Fn([], [], [false], TWICE) && |PrefixCode([])| <= |p.code| && Tail(p, |PrefixCode([])|) == x.p
    requires Reaches(p, s, u) && Reaches(x.p, u, c) && Separate(x) && x.slots == [] && Sees(x, c, W.St([], [], false))
    requires c.pc == At(x, BodyAt(fn))
        && CodeAt(x.p, BodyAt(fn), Compile(TWICE, BodyAt(fn), [], E.Normal(TWICE, BodyAt(fn), [])))
    ensures Run(p, s, k).Some?
  {
    hide PrefixCode, Tail, Separate, Sees, CodeAt, Compile, E.Normal, BodyAt, Step;
    var m: nat :| Run(p, s, m) == Some(u);
    var n: nat :| Run(x.p, u, n) == Some(c);
    TwiceHangs(x, BodyAt(fn), c, k);
    RunAdd(x.p, u, n, k);
    RunPart(p, |PrefixCode([])|, u, n + k);
    RunAdd(p, s, m, n + k);
    RunShorter(p, s, k, m + (n + k));
  }
}
