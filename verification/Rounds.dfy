/**
 Compile-and-execute rounds, from the bytes of a body to the answers. The platform is given by what it promises: where
 it loads the bytes, in what state it calls them, and that it hands back the first half-word of the buffer and x0 when
 the call comes back.
 */
module Rounds {
  import opened Numbers
  import opened Results
  import opened Isa
  import opened Machine
  import opened Codegen
  import opened Layout
  import opened Simulation
  import opened Body
  import opened Function
  import opened Image
  import opened Agreement
  import opened Typing
  import opened Correctness
  import opened History
  import opened Narrow
  import opened Compiler
  import H = Halting
  import L = Linking
  import Bytecode
  import Emission
  import HexText
  import Loading
  import Patching
  import T = Typing
  import W = Wasm

  /** What executing bytes gives: the return code and the answer. */
  type Executor = seq<HexText.Byte> -> (int, int)

  /** Where the bytes are loaded and the state in which they are called: the buffer in x0, the operand stack in x1. */
  datatype Host = Host(base: int, s: State)

  function ImageCode(fn: Fn, args: seq<W.Value>): seq<Instr> { PrefixCode(args) + FnCode(fn, NormalOf(fn)) }

  /** The bytes that a round executes. */
  function ImageBytes(fn: Fn, args: seq<W.Value>): seq<HexText.Byte> {
    Bytes'(Patching.CodeText(PrefixCode(args)) + Patching.CodeText(FnCode(fn, NormalOf(fn))))
  }

  function Regions(h: Host, fn: Fn, args: seq<W.Value>): Ctx {
    Ctx(Program(h.base + 4 * |PrefixCode(args)|, FnCode(fn, NormalOf(fn))), h.s.regs[0], h.s.regs[1],
        h.s.sp - Frame(fn), Slots(fn), Extent(fn))
  }

  /** Buffer, operand stack and frame are aligned, in the address space and disjoint. */
  ghost predicate Room(x: Ctx) {
    && x.buf % 4 == 0 && x.wst % 4 == 0 && x.fp % 4 == 0
    && x.buf + BUFFER_BYTES <= TWO64 && 8 <= x.wst && x.wst + STACK_BYTES <= TWO64 && SAVE_BYTES <= x.fp
        && x.fp + x.extent < TWO64
    && Apart(x.buf, BUFFER_BYTES, x.wst, STACK_BYTES)
    && Apart(x.buf, BUFFER_BYTES, x.fp - SAVE_BYTES, SAVE_BYTES + x.extent)
    && Apart(x.wst, STACK_BYTES, x.fp - SAVE_BYTES, SAVE_BYTES + x.extent)
  }

  /** The platform calls the bytes of the image at their first word, from outside them. */
  ghost predicate Hosts(h: Host, fn: Fn, args: seq<W.Value>) {
    && 0 <= h.s.regs[0] && Room(Regions(h, fn, args))
    && h.s.pc == h.base && 0 <= h.base && h.base + 4 * |ImageCode(fn, args)| < TWO64
    && !InCode(Program(h.base, ImageCode(fn, args)), h.s.regs[30])
  }

  /** The call of a program has come back. */
  ghost predicate Returns(h: Host, p: Program, t: State) {
    Reaches(p, h.s, t) && t.pc == h.s.regs[30] && !InCode(p, t.pc)
  }

  /** It comes back in one state only. */
  lemma ReturnsOnce(h: Host, p: Program, t: State, t': State)
    requires Returns(h, p, t) && Returns(h, p, t')
    ensures t == t'
  {
    hide Run, InCode;
    var m: nat :| Run(p, h.s, m) == Some(t);
    var n: nat :| Run(p, h.s, n) == Some(t');
    if m <= n {
      StoppedBefore(p, h.s, t, t', m, n);
    } else {
      StoppedBefore(p, h.s, t', t, n, m);
    }
  }

  lemma StoppedBefore(p: Program, s: State, t: State, t': State, m: nat, n: nat)
    requires m <= n && Run(p, s, m) == Some(t) && Run(p, s, n) == Some(t') && !InCode(p, t.pc)
    ensures t == t'
  {
    hide Run, InCode;
    RunAdd(p, s, m, n - m);
    Stopped(p, t, n - m);
  }

  lemma Stopped(p: Program, t: State, n: nat)
    requires !InCode(p, t.pc)
    ensures Run(p, t, n) == if n == 0 then Some(t) else None
  {}

  /** The half-word at an address, as a signed number. */
  function HalfWord(m: Mem, a: int): int {
    var u := Peek(m, a) % 0x1_0000;
    if u < 0x8000 then u else u - 0x1_0000
  }

  /** `run` executes the bytes as the machine does. */
  ghost predicate Answers(run: Executor, h: Host, bytes: seq<HexText.Byte>) {
    forall t: State :: Returns(h, Loading.ProgramOf(bytes, h.base), t) ==>
        run(bytes) == (HalfWord(t.mem, h.s.regs[0]), SInt(t.regs[0], true))
  }

  // What is answered.

  function Outcome(code: int, answer: int): Result<int> { if code != 0 then Err(Trapped) else Ok(answer) }

  /** What a round gives whose call has come back in state `t`. */
  function AnswerIn(h: Host, t: State): Result<int> {
    Outcome(HalfWord(t.mem, h.s.regs[0]), SInt(t.regs[0], true))
  }

  predicate Typed(fn: Fn, args: seq<W.Value>) {
    |args| == |fn.params| && forall i :: 0 <= i < |args| ==> args[i].wide == fn.params[i]
  }

  /** The emitted code's run pops only values of the width it wants, down to the result. */
  ghost predicate Determined(fn: Fn, args: seq<W.Value>) {
    var o := W.Jit(fn.body, Start(fn, args));
    Regular(o) && (o.Done? && |fn.results| == 1 ==> W.Ready(o.st, fn.results[0]))
  }

  /** The answer that the run asks for. */
  ghost predicate Answered(fn: Fn, args: seq<W.Value>, r: Result<int>) {
    var o := W.Jit(fn.body, Start(fn, args));
    && (o.Trap? ==> r == Err(Trapped))
    && (o.Done? ==> r.Ok? && (|fn.results| == 1 && |o.st.stack| > 0 ==> r.value == SInt(W.Top(o.st).v.bits, true)))
  }

  /** The answer that the standard asks for: the trap exactly when it traps, otherwise its result. */
  ghost predicate Standard(fn: Fn, args: seq<W.Value>, r: Result<int>) {
    var q := RefRun(fn, args);
    && (q.RDone? || q.RTrap?) && (q.RTrap? <==> r == Err(Trapped))
    && (q.RDone? ==> r.Ok? && (|fn.results| == 1 ==> |q.st.stack| == 1 && r.value == SInt(q.st.stack[0].bits, true)))
  }

  ghost predicate CleanRunOf(fn: Fn, args: seq<W.Value>) { Clean(SeenBy(RefRun(fn, args), W.Seen(true, false))) }

  lemma AgreedAnswer(fn: Fn, o: W.Outcome, q: W.RefOutcome)
    requires Agree(o, q) && Regular(o) && (q.RDone? || q.RTrap?)
    requires q.RDone? ==> |q.st.stack| == |fn.results| && Types(q.st.stack) == fn.results
    ensures q.RTrap? <==> o.Trap?
    ensures o.Done? && |fn.results| == 1 ==>
      W.Ready(o.st, fn.results[0]) && |q.st.stack| == 1 && W.Top(o.st).v.bits == q.st.stack[0].bits
  {
    if o.Done? && |fn.results| == 1 {
      AtopTop(o.st, q.st);
      assert q.st.stack[0] == W.RefTop(q.st);
      assert Types(q.st.stack)[0] == q.st.stack[0].wide;
    }
  }

  /** A clean run is determined, and its answer is the standard's. */
  lemma CleanStandard(fn: Fn, args: seq<W.Value>)
    requires Suitable(fn) && Typed(fn, args) && CleanRunOf(fn, args)
    ensures Determined(fn, args) && forall r :: Answered(fn, args, r) ==> Standard(fn, args, r)
  {
    hide W.Ref, W.Jit, Suitable, Clean, SeenBy, Agree, RefRun;
    CleanRun(fn, args);
    ResultTypes(fn, args);
    AgreedAnswer(fn, W.Jit(fn.body, Start(fn, args)), RefRun(fn, args));
  }

  // One call.

  lemma RoomSeparate(x: Ctx, fn: Fn)
    requires Room(x) && 0 <= x.buf && x.slots == Slots(fn) && x.extent == Extent(fn) && SlotsApart(Slots(fn))
    ensures Separate(x)
  {
    hide SlotsApart, Slots, Extent, Effective;
    forall i | 0 <= i < |x.slots| ensures Effective(x.slots[i]) + Size(x.slots[i].wide) <= x.extent {
      ExtentHoldsSlots(fn, i);
    }
  }

  lemma HostCalls(h: Host, fn: Fn, args: seq<W.Value>)
    requires Hosts(h, fn, args) && Typed(fn, args) && Loading.Fits(fn) && SlotsApart(Slots(fn))
    ensures Called(Program(h.base, ImageCode(fn, args)), Regions(h, fn, args), fn, NormalOf(fn), args, h.s)
  {
    hide PrefixCode, FnCode, NormalOf, SlotsApart, Slots, Frame, Extent, FinalizeAt, Separate, InCode;
    RoomSeparate(Regions(h, fn, args), fn);
  }

  lemma ImageLoaded(fn: Fn, args: seq<W.Value>, base: int)
    requires Loading.Fits(fn) && |args| == |fn.params|
    ensures Loading.ProgramOf(ImageBytes(fn, args), base) == Program(base, ImageCode(fn, args))
  {
    hide Loading.Fits, Loading.ProgramOf, PrefixCode, FnCode, NormalOf, Patching.CodeText, HexText.IsHex,
         HexText.Bytes;
    FitsReach(fn);
    NormalInside(fn);
    Loading.SoundImage(fn, NormalOf(fn), args);
    Loading.Loaded(ImageCode(fn, args), base);
    Patching.CodeTextAppend(PrefixCode(args), FnCode(fn, NormalOf(fn)));
  }

  /** The return code and x0 say what the run asks for. */
  lemma ToldAnswer(x: Ctx, fn: Fn, args: seq<W.Value>, t: State)
    requires Determined(fn, args) && Tells(x, fn, W.Jit(fn.body, Start(fn, args)), t)
    ensures Answered(fn, args, Outcome(HalfWord(t.mem, x.buf), SInt(t.regs[0], true)))
  {
    hide W.Jit, LocalsOk;
  }

  /** Executing the image of a function on the machine gives the answer that its run asks for. */
  lemma ImageAnswers(run: Executor, h: Host, fn: Fn, args: seq<W.Value>)
    requires Hosts(h, fn, args) && Typed(fn, args) && Loading.Fits(fn) && SlotsApart(Slots(fn)) && Suitable(fn)
        && Determined(fn, args)
    requires Answers(run, h, ImageBytes(fn, args))
    ensures Answered(fn, args, Outcome(run(ImageBytes(fn, args)).0, run(ImageBytes(fn, args)).1))
  {
    hide *;
    var p, x := Program(h.base, ImageCode(fn, args)), Regions(h, fn, args);
    HostCalls(h, fn, args);
    SuitableDivision(fn);
    DeterminedRegular(fn, args);
    FitsTyped(fn, args);
    var t := ImageCorrect(p, x, fn, NormalOf(fn), args, h.s);
    ImageLoaded(fn, args, h.base);
    BackReturns(h, fn, args, t);
    AnswerOf(run, h, ImageBytes(fn, args), t);
    ToldAnswer(x, fn, args, t);
    RegionsBuffer(h, fn, args);
  }

  lemma DeterminedRegular(fn: Fn, args: seq<W.Value>)
    requires Determined(fn, args)
    ensures Regular(W.Jit(fn.body, Start(fn, args)))
  {}

  lemma FitsTyped(fn: Fn, args: seq<W.Value>)
    requires Typed(fn, args)
    ensures |args| == |fn.params|
  {}

  lemma RegionsBuffer(h: Host, fn: Fn, args: seq<W.Value>)
    ensures Regions(h, fn, args).buf == h.s.regs[0]
  {}

  lemma BackReturns(h: Host, fn: Fn, args: seq<W.Value>, t: State)
    requires Hosts(h, fn, args) && Reaches(Program(h.base, ImageCode(fn, args)), h.s, t)
        && Back(Regions(h, fn, args), h.s, t)
    ensures Returns(h, Program(h.base, ImageCode(fn, args)), t)
  {
    hide Reaches, ImageCode, Room, InCode, Regions;
  }

  lemma AnswerOf(run: Executor, h: Host, bytes: seq<HexText.Byte>, t: State)
    requires Answers(run, h, bytes) && Returns(h, Loading.ProgramOf(bytes, h.base), t)
    ensures run(bytes) == (HalfWord(t.mem, h.s.regs[0]), SInt(t.regs[0], true))
  {
    hide Returns, HalfWord, SInt;
  }

  // Two calls, of a function and of the function with more locals.

  /** The operand stacks that the platform hands over hold the same; the source has them zeroed. */
  ghost predicate SameOperands(h: Host, h': Host) {
    forall k :: 0 <= k < 2 * W.SLOTS ==>
        Peek(h'.s.mem, h'.s.regs[1] + 4 * k) == Peek(h.s.mem, h.s.regs[1] + 4 * k)
  }

  /** Both are traps, or the results are the same, if there is one. */
  predicate SameAnswer(fn: Fn, r: Result<int>, r': Result<int>) {
    && (r == Err(Trapped) <==> r' == Err(Trapped)) && (r.Ok? <==> r'.Ok?)
    && (r.Ok? && |fn.results| == 1 ==> r'.value == r.value)
  }

  lemma CallReturns(h: Host, fn: Fn, args: seq<W.Value>, t: State)
    requires Hosts(h, fn, args) && Back(Regions(h, fn, args), h.s, t)
    requires Reaches(Program(h.base, ImageCode(fn, args)), h.s, t)
    ensures Returns(h, Program(h.base, ImageCode(fn, args)), t)
  {
    hide *;
    BackReturns(h, fn, args, t);
  }

  lemma AlikeAnswers(h: Host, h': Host, fn: Fn, extra: seq<bool>, args: seq<W.Value>, t: State, t': State)
    requires H.Alike(H.Pair(Regions(h, fn, args), Regions(h', More(fn, extra), args), fn, extra), fn, t, t')
    ensures SameAnswer(fn, AnswerIn(h, t), AnswerIn(h', t'))
  {
    hide PrefixCode, FnCode, NormalOf, Slots, Extent, Frame, More;
  }

  lemma SameStacks(h: Host, h': Host, fn: Fn, extra: seq<bool>, args: seq<W.Value>)
    requires SameOperands(h, h')
    ensures H.SameStack(H.Pair(Regions(h, fn, args), Regions(h', More(fn, extra), args), fn, extra), h.s.mem, h'.s.mem)
  {
    hide PrefixCode, FnCode, NormalOf, Slots, Extent, Frame, More;
  }

  /**
   Whatever the `if`s leave behind and the code pops: from the same contents of the operand stack, the function and the
   function with more locals give the same answer, on any two hosts.
   */
  lemma TwinAnswers(h: Host, h': Host, fn: Fn, extra: seq<bool>, args: seq<W.Value>, t: State) returns (t': State)
    requires Suitable(fn) && Typed(fn, args) && SameOperands(h, h')
    requires Hosts(h, fn, args) && Loading.Fits(fn) && SlotsApart(Slots(fn))
    requires Hosts(h', More(fn, extra), args) && Loading.Fits(More(fn, extra)) && SlotsApart(Slots(More(fn, extra)))
    requires Returns(h, Program(h.base, ImageCode(fn, args)), t)
    ensures Returns(h', Program(h'.base, ImageCode(More(fn, extra), args)), t')
    ensures SameAnswer(fn, AnswerIn(h, t), AnswerIn(h', t'))
  {
    hide *;
    var p, p' := Program(h.base, ImageCode(fn, args)), Program(h'.base, ImageCode(More(fn, extra), args));
    MoreTyped(fn, extra, args);
    HostCalls(h, fn, args);
    HostCalls(h', More(fn, extra), args);
    SameStacks(h, h', fn, extra, args);
    var u, u' := H.Twins(p, p', Regions(h, fn, args), Regions(h', More(fn, extra), args), fn, extra, args, h.s, h'.s);
    CallReturns(h, fn, args, u);
    CallReturns(h', More(fn, extra), args, u');
    ReturnsOnce(h, p, t, u);
    AlikeAnswers(h, h', fn, extra, args, u, u');
    t' := u';
  }

  lemma MoreTyped(fn: Fn, extra: seq<bool>, args: seq<W.Value>)
    requires Typed(fn, args)
    ensures Typed(More(fn, extra), args)
  {}

  /** The answer of a round on host `h` is the one of a fresh object, on any host with the same operand stack. */
  ghost predicate LikeFresh(h: Host, fn: Fn, args: seq<W.Value>, r: Result<int>) {
    forall h0: Host, t: State ::
      Hosts(h0, fn, args) && SameOperands(h0, h) && Returns(h0, Program(h0.base, ImageCode(fn, args)), t)
      ==> SameAnswer(fn, AnswerIn(h0, t), r)
  }

  lemma FreshAnswer(run: Executor, h: Host, fn: Fn, extra: seq<bool>, args: seq<W.Value>)
    requires Suitable(fn) && Typed(fn, args) && Loading.Fits(fn) && SlotsApart(Slots(fn))
    requires Hosts(h, More(fn, extra), args) && Loading.Fits(More(fn, extra)) && SlotsApart(Slots(More(fn, extra)))
    requires Answers(run, h, ImageBytes(More(fn, extra), args))
    ensures
      var a := run(ImageBytes(More(fn, extra), args));
      LikeFresh(h, fn, args, Outcome(a.0, a.1))
  {
    hide Suitable, Typed, Loading.Fits, SlotsApart, Hosts, Answers, ImageBytes, ImageCode, SameOperands, Returns,
         AnswerIn, SameAnswer, Slots, More;
    MoreTyped(fn, extra, args);
    FitsTyped(More(fn, extra), args);
    var a := run(ImageBytes(More(fn, extra), args));
    forall h0: Host, t: State |
      Hosts(h0, fn, args) && SameOperands(h0, h) && Returns(h0, Program(h0.base, ImageCode(fn, args)), t)
      ensures SameAnswer(fn, AnswerIn(h0, t), Outcome(a.0, a.1))
    {
      var t' := TwinAnswers(h0, h, fn, extra, args, t);
      ImageLoaded(More(fn, extra), args, h.base);
      AnswerOf(run, h, ImageBytes(More(fn, extra), args), t');
      AnswerIs(h, t', a);
    }
  }

  lemma AnswerIs(h: Host, t: State, a: (int, int))
    requires a == (HalfWord(t.mem, h.s.regs[0]), SInt(t.regs[0], true))
    ensures AnswerIn(h, t) == Outcome(a.0, a.1)
  {}

  // One round.

  /** The locals that a body declares. */
  function Own(codeVec: seq<W.Byte>, declares: nat): seq<bool> {
    if 2 * declares <= |codeVec| then Declared(codeVec, declares) else []
  }

  /** Types and bytes are those of the function, whose locals are the ones that compiling next will have. */
  ghost predicate Describes(fn: Fn, results: seq<bool>, locals: seq<bool>, codeVec: seq<W.Byte>, declares: nat) {
    && fn.results == results && 2 * declares <= |codeVec| && fn.locals == locals + Own(codeVec, declares)
    && codeVec[2 * declares..] == Bytecode.AllBytes(Emission.Flatten(fn.body) + [Emission.Stop])
    && forall f | f in Emission.Flatten(fn.body) :: Bytecode.OneByte(f)
  }

  /** The object is ready to compile and execute the function. */
  ghost predicate Ready(f: WasmFunction, fn: Fn)
    reads f
  {
    && f.Valid() && f.e == Emission.Emit([], map[], [], f.ifLabel) && f.preInstructions == ""
    && Describes(fn, f.results, f.locals, f.codeVec, f.declares)
  }

  /** The pass, the patching and the loading: the compiled bytes are the image's. */
  lemma CompiledImage(fn: Fn, n: nat, args: seq<W.Value>)
    requires Loading.Fits(fn) && Suitable(fn) && |args| == |fn.params|
    ensures
      var shape, fs := fn.(body := W.End), Emission.Flatten(fn.body) + [Emission.Stop];
      && Compiles(shape, n, Some(fs)) && Frame(shape) == Frame(fn)
      && var whole := L.Whole(shape, n, fs).value;
         && whole.control == []
         && Bytes'(Patching.CodeText(PrefixCode(args))
             + Patching.CodeText(Emission.ResolveAll(whole.items, 0, whole.labels))) == ImageBytes(fn, args)
  {
    hide PrefixCode, FnCode, Emission.Flatten, L.Whole, Patching.CodeText, HexText.Bytes, HexText.IsHex,
         Patching.AllAccepted, NormalOf, Slots, Emission.VarsInRange, FinalizeAt, Frame, Type, Peak,
         Emission.Divisions, Emission.ResolveAll;
    H.TypedVars(fn.body, [], Widths(fn), Slots(fn));
    RoundRuns(fn, n, args, 0);
    var e := L.WholeLinked(fn, n);
    NormalIs(fn);
    WholeOfShape(fn, n, Emission.Flatten(fn.body) + [Emission.Stop]);
    assert Frame(fn.(body := W.End)) == Frame(fn) by { FrameIs(fn); FrameIs(fn.(body := W.End)); }
  }

  /**
   One round, from the bytes of a body to the answer: whatever its label count and locals, the object compiles the body,
   the answer is the one that the run asks for, in a clean run the standard's, and the object is ready for the next
   round, with the body's locals once more.
   */
  method OneRound(f: WasmFunction, run: Executor, ghost h: Host, ghost fn: Fn) returns (r: Result<int>)
    requires Ready(f, fn) && Typed(fn, f.params) && Suitable(fn) && Loading.Fits(fn) && SlotsApart(Slots(fn))
    requires Hosts(h, fn, f.params) && Answers(run, h, ImageBytes(fn, f.params))
    modifies f
    ensures Ready(f, More(fn, Own(f.codeVec, f.declares)))
    ensures f.locals == fn.locals && f.params == old(f.params) && f.results == old(f.results)
    ensures f.codeVec == old(f.codeVec) && f.declares == old(f.declares)
    ensures Determined(fn, f.params) ==> Answered(fn, f.params, r)
    ensures CleanRunOf(fn, f.params) ==> Standard(fn, f.params, r)
    ensures r == Outcome(run(ImageBytes(fn, f.params)).0, run(ImageBytes(fn, f.params)).1)
  {
    hide Suitable, SlotsApart, Slots, Frame, Hosts, Answers, Determined, Answered, Standard, CleanRunOf, ImageBytes,
         Bytecode.Sensible, Bytecode.Instructions, Compiles, L.Whole, Patching.CodeText, PrefixCode,
         Emission.ResolveAll, Emission.Flatten, Bytecode.AllBytes, Bytecode.OneByte, Declared, Bytes', Loading.Fits;
    Bytecode.BodyBack(f.codeVec, 2 * f.declares, fn.body);
    CompiledImage(fn, f.ifLabel, f.params);
    ShapeOf(fn, f.params, f.Grown());
    r := f.Round(run);
    if Determined(fn, f.params) {
      ImageAnswers(run, h, fn, f.params);
    }
    if CleanRunOf(fn, f.params) {
      CleanStandard(fn, f.params);
    }
  }

  lemma ShapeOf(fn: Fn, args: seq<W.Value>, grown: Fn)
    requires Typed(fn, args) && grown == Fn(Types(args), fn.locals, fn.results, W.End) && Loading.Fits(fn)
    ensures grown == fn.(body := W.End) && |fn.params| <= 19 && |fn.results| <= 1 && Frame(fn) < 4096
  {
    assert Types(args) == fn.params;
  }

  // Any number of rounds on one object.

  function Copies(own: seq<bool>, n: nat): seq<bool> { if n == 0 then [] else Copies(own, n - 1) + own }

  /** The function that a fresh object compiles in round `n`, from 0: the body's locals are there `n + 1` times. */
  function After(fn: Fn, n: nat): Fn { More(fn, Copies(fn.locals, n)) }

  lemma AfterNext(fn: Fn, n: nat)
    ensures More(After(fn, n), fn.locals) == After(fn, n + 1) && After(fn, 0) == fn
  {}

  lemma RoundUpRises(a: nat, b: nat)
    requires a <= b
    ensures RoundUp(a) <= RoundUp(b)
  {}

  /** With fewer locals a function fits all the more. */
  lemma FitsLess(fn: Fn, a: seq<bool>, b: seq<bool>)
    requires Suitable(fn) && |a| <= |b| && Loading.Fits(More(fn, b))
    ensures Loading.Fits(More(fn, a))
  {
    hide Slots, Type, Peak, Emission.Divisions, RoundUp, Length;
    H.TypedVars(fn.body, [], Widths(fn), Slots(fn));
    H.LengthKept(fn.body, Slots(fn), Slots(More(fn, a)));
    H.LengthKept(fn.body, Slots(fn), Slots(More(fn, b)));
    RoundUpRises(LocalEnd(|fn.params|, |More(fn, a).locals|), LocalEnd(|fn.params|, |More(fn, b).locals|));
  }

  lemma CopiesLength(own: seq<bool>, m: nat, n: nat)
    requires m <= n
    ensures |Copies(own, m)| <= |Copies(own, n)|
    decreases n - m
  {
    if m < n {
      CopiesLength(own, m, n - 1);
    }
  }

  lemma CopiesNarrow(own: seq<bool>, n: nat)
    requires AllNarrow(own)
    ensures AllNarrow(Copies(own, n))
  {
    if n > 0 {
      CopiesNarrow(own, n - 1);
    }
  }

  /** In every round the slots of an i32 frame are disjoint. */
  lemma AfterApart(fn: Fn, n: nat)
    requires AllNarrow(Widths(fn))
    ensures SlotsApart(Slots(After(fn, n)))
  {
    hide SlotsApart, Slots;
    assert forall k :: 0 <= k < |fn.locals| ==> fn.locals[k] == Widths(fn)[|fn.params| + k];
    CopiesNarrow(fn.locals, n);
    assert Widths(After(fn, n)) == Widths(fn) + Copies(fn.locals, n);
    NarrowFrame(After(fn, n));
  }

  /** More locals change neither whether a run is determined nor its answer. */
  lemma MoreAnswered(fn: Fn, extra: seq<bool>, args: seq<W.Value>)
    requires Determined(fn, args)
    ensures Determined(More(fn, extra), args) && forall r :: Answered(More(fn, extra), args, r) ==>
        Answered(fn, args, r)
  {
    hide W.Jit;
    MoreJit(fn, extra, args);
  }

  /**
   What a round's answer is to be, in terms of the function alone: so it is the same in every round, as in the first.
   */
  ghost predicate Served(fn: Fn, args: seq<W.Value>, r: Result<int>) {
    (Determined(fn, args) ==> Answered(fn, args, r)) && (CleanRunOf(fn, args) ==> Standard(fn, args, r))
  }

  lemma ServedAfter(fn: Fn, n: nat, args: seq<W.Value>, r: Result<int>)
    requires Suitable(fn) && Typed(fn, args) && (Determined(After(fn, n), args) ==> Answered(After(fn, n), args, r))
    ensures Served(fn, args, r)
  {
    hide Determined, Answered, Standard, CleanRunOf, Suitable, Copies;
    if CleanRunOf(fn, args) {
      CleanStandard(fn, args);
    }
    if Determined(fn, args) {
      MoreAnswered(fn, Copies(fn.locals, n), args);
    }
  }

  lemma NarrowServed(fn: Fn, args: seq<W.Value>, r: Result<int>)
    requires Suitable(fn) && NarrowFn(fn) && Typed(fn, args) && Served(fn, args, r)
    ensures Determined(fn, args) && Answered(fn, args, r)
  {
    hide W.Jit, Suitable, NarrowFn, Answered, Standard, CleanRunOf;
    NarrowRegular(fn, args);
  }

  lemma AfterFits(fn: Fn, n: nat, last: nat)
    requires Suitable(fn) && n <= last && Loading.Fits(After(fn, last))
    ensures Loading.Fits(After(fn, n))
  {
    hide Suitable, Loading.Fits, Copies;
    CopiesLength(fn.locals, n, last);
    FitsLess(fn, Copies(fn.locals, n), Copies(fn.locals, last));
  }

  lemma AfterReady(fn: Fn, n: nat, last: nat, args: seq<W.Value>)
    requires Suitable(fn) && AllNarrow(Widths(fn)) && n <= last && Loading.Fits(After(fn, last)) && Typed(fn, args)
    ensures Suitable(After(fn, n)) && Loading.Fits(After(fn, n)) && SlotsApart(Slots(After(fn, n)))
        && Typed(After(fn, n), args)
  {
    hide Suitable, Loading.Fits, SlotsApart, Slots, Copies, AllNarrow;
    MoreSuitable(fn, Copies(fn.locals, n));
    AfterFits(fn, n, last);
    AfterApart(fn, n);
  }

  lemma FreshAfter(run: Executor, h: Host, fn: Fn, n: nat, args: seq<W.Value>)
    requires Suitable(fn) && AllNarrow(Widths(fn)) && Loading.Fits(After(fn, n)) && Typed(fn, args)
    requires Hosts(h, After(fn, n), args) && Answers(run, h, ImageBytes(After(fn, n), args))
    ensures
      var a := run(ImageBytes(After(fn, n), args));
      LikeFresh(h, fn, args, Outcome(a.0, a.1))
  {
    hide Suitable, Typed, Loading.Fits, SlotsApart, Hosts, Answers, ImageBytes, Slots, More, Copies, AllNarrow,
         LikeFresh;
    AfterReady(fn, 0, n, args);
    AfterReady(fn, n, n, args);
    AfterNext(fn, 0);
    FreshAnswer(run, h, fn, Copies(fn.locals, n), args);
  }

  /** The platform serves round `n` with these arguments. */
  ghost predicate Serves(run: Executor, h: Host, fn: Fn, n: nat, args: seq<W.Value>) {
    Typed(fn, args) && Hosts(h, After(fn, n), args) && Answers(run, h, ImageBytes(After(fn, n), args))
  }

  lemma ServesTyped(run: Executor, h: Host, fn: Fn, n: nat, args: seq<W.Value>)
    requires Serves(run, h, fn, n, args)
    ensures Typed(fn, args)
  {
    hide Hosts, Answers, ImageBytes, Typed;
  }

  lemma FirstReady(f: WasmFunction, fn: Fn)
    requires f.Valid() && f.e == Emission.Emit([], map[], [], f.ifLabel) && f.preInstructions == "" && f.locals == []
    requires Describes(fn, f.results, [], f.codeVec, f.declares)
    ensures Ready(f, After(fn, 0)) && Own(f.codeVec, f.declares) == fn.locals
  {
    hide Emission.Flatten, Bytecode.AllBytes, Bytecode.OneByte, Own;
    AfterNext(fn, 0);
  }

  /** Round `n` of an object. */
  method NextRound(f: WasmFunction, run: Executor, args: seq<W.Value>, ghost h: Host, ghost fn: Fn, ghost n: nat)
    returns (r: Result<int>)
    requires Ready(f, After(fn, n)) && Own(f.codeVec, f.declares) == fn.locals
    requires Suitable(fn) && AllNarrow(Widths(fn)) && Loading.Fits(After(fn, n)) && Serves(run, h, fn, n, args)
    modifies f
    ensures Ready(f, After(fn, n + 1))
    ensures f.results == old(f.results) && f.codeVec == old(f.codeVec) && f.declares == old(f.declares)
    ensures LikeFresh(h, fn, args, r) && Served(fn, args, r)
  {
    hide Suitable, Hosts, Answers, Served, Determined, Answered, Standard, CleanRunOf, ImageBytes, After, AllNarrow,
         LikeFresh, Outcome, Loading.Fits, SlotsApart, Slots, Emission.Flatten, Bytecode.AllBytes, Bytecode.OneByte,
         Own, Typed, Describes;
    f.params := args;
    AfterReady(fn, n, n, args);
    r := OneRound(f, run, h, After(fn, n));
    ServedAfter(fn, n, args, r);
    FreshAfter(run, h, fn, n, args);
    AfterNext(fn, n);
  }

  /**
   History independence. Over any sequence of rounds on one object, for a function with an i32 frame and at most one
   division whose grown frame still fits the immediate, and for any inputs and any placing of the images: every round's
   answer, trapping or not, is the one of a fresh object, without any condition on what the `if`s find on the stack. It
   is the one that its run asks for, and in a clean run the standard's. Without i64 values in the body every run is
   determined.
   */
  method Rounds(results: seq<bool>, codeVec: seq<W.Byte>, declares: nat, inputs: seq<seq<W.Value>>, runs: seq<Executor>,
                ghost hosts: seq<Host>, ghost fn: Fn) returns (answers: seq<Result<int>>)
    requires Describes(fn, results, [], codeVec, declares) && Suitable(fn) && AllNarrow(Widths(fn))
    requires |runs| == |inputs| && |hosts| == |inputs| && (|inputs| > 0 ==> Loading.Fits(After(fn, |inputs| - 1)))
    requires forall i :: 0 <= i < |inputs| ==> Serves(runs[i], hosts[i], fn, i, inputs[i])
    ensures |answers| == |inputs|
    ensures forall i :: 0 <= i < |inputs| ==> LikeFresh(hosts[i], fn, inputs[i], answers[i])
    ensures forall i :: 0 <= i < |inputs| ==> Served(fn, inputs[i], answers[i])
    ensures NarrowFn(fn) ==> forall i :: 0 <= i < |inputs| ==>
        Determined(fn, inputs[i]) && Answered(fn, inputs[i], answers[i])
  {
    hide Suitable, Hosts, Serves, Served, Determined, Answered, ImageBytes, After, NarrowFn, AllNarrow, LikeFresh,
         Loading.Fits, Describes, Own;
    answers := [];
    var f := new WasmFunction([], results, codeVec, declares);
    FirstReady(f, fn);
    for i := 0 to |inputs|
      invariant |answers| == i && Ready(f, After(fn, i)) && f.codeVec == codeVec && f.declares == declares
      invariant forall j :: 0 <= j < i ==> LikeFresh(hosts[j], fn, inputs[j], answers[j])
      invariant forall j :: 0 <= j < i ==> Served(fn, inputs[j], answers[j])
    {
      AfterFits(fn, i, |inputs| - 1);
      var r := NextRound(f, runs[i], inputs[i], hosts[i], fn, i);
      answers := answers + [r];
    }
    if NarrowFn(fn) {
      forall i | 0 <= i < |inputs| ensures Determined(fn, inputs[i]) && Answered(fn, inputs[i], answers[i]) {
        ServesTyped(runs[i], hosts[i], fn, i, inputs[i]);
        NarrowServed(fn, inputs[i], answers[i]);
      }
    }
  }
}
