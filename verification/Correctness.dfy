/**
 The main results: a compiled function, loaded and called, does what the standard says; what goes wrong when the
 hypotheses fail; and why compiling again changes nothing.
 */
module Correctness {
  import opened Numbers
  import opened Isa
  import opened Machine
  import opened Codegen
  import opened Layout
  import opened Simulation
  import opened Body
  import opened Function
  import opened Image
  import opened Agreement
  import opened Typing
  import L = Linking
  import Emission
  import Patching
  import HexText
  import Loading
  import Compiler
  import W = Wasm

  /** The word that the function's `normal_div` stands for. */
  function NormalOf(fn: Fn): nat { Emission.Normal(fn.body, BodyAt(fn), Slots(fn)) }

  /** Validated, at most one division, an operand stack of at most 1024 slots. */
  ghost predicate Suitable(fn: Fn) {
    && Type(fn.body, [], Widths(fn)) == Some(fn.results)
    && Emission.Divisions(fn.body) <= 1
    && Peak(fn.body, 0) <= W.SLOTS
  }

  /** The standard's run of the function. */
  function RefRun(fn: Fn, args: seq<W.Value>): W.RefOutcome { W.Ref(fn.body, RefStart(FirstVals(fn, args))) }

  /** The return code, the result and the variables that the standard's outcome asks for. */
  ghost predicate Matches(x: Ctx, fn: Fn, q: W.RefOutcome, t: State) {
    && (q.RDone? || q.RTrap?)
    && (q.RTrap? ==> Load(t.mem, x.buf, true) == 1)
    && (q.RDone? ==>
      && Load(t.mem, x.buf, true) == 0
      && LocalsOk(x, t.mem, q.st.locals)
      && |q.st.stack| == |fn.results| && (|fn.results| == 1 ==> t.regs[0] == q.st.stack[0].bits))
  }

  lemma ArgumentTypes(fn: Fn, args: seq<W.Value>)
    requires |args| == |fn.params| && forall i :: 0 <= i < |args| ==> args[i].wide == fn.params[i]
    ensures Types(FirstVals(fn, args)) == Widths(fn)
  {}

  /** What validation and a clean run give. */
  lemma CleanRun(fn: Fn, args: seq<W.Value>)
    requires Suitable(fn) && |args| == |fn.params| && (forall i :: 0 <= i < |args| ==> args[i].wide == fn.params[i])
    requires Clean(SeenBy(RefRun(fn, args), W.Seen(true, false)))
    ensures
      var q, o := RefRun(fn, args), W.Jit(fn.body, Start(fn, args));
      (q.RDone? || q.RTrap?) && Regular(o) && Agree(o, q) && (q.RDone? ==> |q.st.stack| == |fn.results|)
  {
    hide W.Ref, W.Jit, Type, Peak, Emission.Divisions, Clean, SeenBy;
    var r, st := RefStart(FirstVals(fn, args)), JitStart(FirstVals(fn, args));
    ArgumentTypes(fn, args);
    ValidRuns(fn.body, r, [], Widths(fn));
    ValidUnreturned(fn.body, [], Widths(fn));
    DepthBounded(fn.body, st, 0);
    Agrees(fn.body, st, r);
  }

  lemma AgreedMatches(x: Ctx, fn: Fn, o: W.Outcome, q: W.RefOutcome, t: State)
    requires (q.RDone? || q.RTrap?) && Agree(o, q) && Tells(x, fn, o, t) && (q.RDone? ==> |q.st.stack| == |fn.results|)
    requires q.RDone? ==> Types(q.st.stack) == fn.results
    ensures Matches(x, fn, q, t)
  {
    if q.RDone? && |fn.results| == 1 {
      AtopTop(o.st, q.st);
      assert q.st.stack[0] == W.RefTop(q.st);
      assert Types(q.st.stack)[0] == q.st.stack[0].wide;
    }
  }

  lemma ResultTypes(fn: Fn, args: seq<W.Value>)
    requires Suitable(fn) && |args| == |fn.params| && (forall i :: 0 <= i < |args| ==> args[i].wide == fn.params[i])
    ensures RefRun(fn, args).RDone? ==> Types(RefRun(fn, args).st.stack) == fn.results
  {
    hide W.Ref, Type, Peak, Emission.Divisions;
    ArgumentTypes(fn, args);
    ValidRuns(fn.body, RefStart(FirstVals(fn, args)), [], Widths(fn));
  }

  lemma CalledTypes(p: Program, x: Ctx, fn: Fn, normal: int, args: seq<W.Value>, s: State)
    requires Called(p, x, fn, normal, args, s)
    ensures |args| == |fn.params| && forall i :: 0 <= i < |args| ==> args[i].wide == fn.params[i]
  {
    hide FnCode, PrefixCode, Separate;
  }

  /**
   Semantic preservation. For every validated function of the fragment with at most one division, and all arguments: if
   every executed `if` finds only its condition on the standard's stack and no unsigned division meets the overflow
   pair, the code runs to its end and comes back to its caller with sp, x22 to x30 and the rest of memory as they were.
   When the standard's run traps, the return code is 1; otherwise it is 0, x0 has the standard's result, and the slots
   have the standard's final values of the variables.
   */
  lemma Preserved(p: Program, x: Ctx, fn: Fn, args: seq<W.Value>, s: State) returns (t: State)
    requires Called(p, x, fn, NormalOf(fn), args, s) && Suitable(fn)
    requires Clean(SeenBy(RefRun(fn, args), W.Seen(true, false)))
    ensures Reaches(p, s, t) && Back(x, s, t) && Matches(x, fn, RefRun(fn, args), t)
  {
    hide *;
    CalledTypes(p, x, fn, NormalOf(fn), args, s);
    SuitableDivision(fn);
    CleanRun(fn, args);
    ResultTypes(fn, args);
    t := ImageCorrect(p, x, fn, NormalOf(fn), args, s);
    AgreedMatches(x, fn, W.Jit(fn.body, Start(fn, args)), RefRun(fn, args), t);
  }

  /**
   A validated function whose types show only the condition at every `if`, and that has no unsigned division, has clean
   runs for all arguments.
   */
  lemma AlwaysClean(fn: Fn, args: seq<W.Value>)
    requires Suitable(fn) && Alone(fn.body, [], Widths(fn)) && SignedOnly(fn.body)
    requires |args| == |fn.params| && forall i :: 0 <= i < |args| ==> args[i].wide == fn.params[i]
    ensures Clean(SeenBy(RefRun(fn, args), W.Seen(true, false)))
  {
    hide W.Ref, Type, Peak, Emission.Divisions, Alone, SignedOnly;
    var r := RefStart(FirstVals(fn, args));
    ArgumentTypes(fn, args);
    AloneSeen(fn.body, r, [], Widths(fn));
    SignedSeen(fn.body, r);
  }

  lemma SuitableDivision(fn: Fn)
    requires Suitable(fn)
    ensures OwnDiv(fn.body, BodyAt(fn), Slots(fn), NormalOf(fn))
  {
    hide Type, Peak, OwnDiv, Emission.Normal;
    Emission.OneDivision(fn.body, BodyAt(fn), Slots(fn));
  }

  // From the compiler's text to the program.

  /** Everything that is compiled is accepted by the branch encoders when the function is within reach. */
  lemma WithinReach(fn: Fn, items: seq<Emission.Item>, labels: map<Emission.Label, nat>, normal: nat)
    requires Loading.Fits(fn) && normal < Loading.REACH && Emission.ResolveAll(items, 0, labels) == FnCode(fn, normal)
    ensures Patching.AllAccepted(items, labels)
  {
    hide FnCode, Loading.Fits;
    Loading.SoundFn(fn, normal);
    forall k | 0 <= k < |items| ensures Patching.AcceptedAt(items, labels, k) {
      if items[k].To? {
        var i := Emission.ResolveAll(items, 0, labels)[k];
        assert i == Emission.Resolve(items[k], 0 + k, labels);
        assert Encodable(i);
      }
    }
  }

  /** The label stands for a word of the function. */
  lemma NormalInside(fn: Fn)
    requires FinalizeAt(fn) < Loading.REACH
    ensures NormalOf(fn) < Loading.REACH
  {
    hide Length, Emission.Divs;
    Emission.DivsInside(fn.body, BodyAt(fn), Slots(fn));
  }

  /**
   For every body within the machine's means, the compiler's single pass succeeds from any label count, and the program
   loaded from its text is the structured code.
   */
  lemma CompilesTo(fn: Fn, n: nat, args: seq<W.Value>, base: int) returns (e: Emission.Emit)
    requires Loading.Fits(fn) && Emission.VarsInRange(fn.body, Slots(fn)) && |args| == |fn.params|
    ensures L.Whole(fn, n, Emission.Flatten(fn.body) + [Emission.Stop]) == Some(e)
    ensures Patching.AllAccepted(e.items, e.labels) && e.control == [] && e.next == n + Emission.Names(fn.body)
    ensures
      var text := Patching.CodeText(PrefixCode(args)) + Patching.CodeText(Emission.ResolveAll(e.items, 0, e.labels));
      HexText.IsHex(text) && Loading.ProgramOf(HexText.Bytes(text), base) ==
          Program(base, PrefixCode(args) + FnCode(fn, NormalOf(fn)))
  {
    hide *;
    e := L.WholeLinked(fn, n);
    FitsReach(fn);
    NormalInside(fn);
    NormalIs(fn);
    WithinReach(fn, e.items, e.labels, NormalOf(fn));
    Loading.SoundImage(fn, NormalOf(fn), args);
    Loading.Loaded(PrefixCode(args) + FnCode(fn, NormalOf(fn)), base);
    Patching.CodeTextAppend(PrefixCode(args), FnCode(fn, NormalOf(fn)));
  }

  lemma FitsReach(fn: Fn)
    requires Loading.Fits(fn)
    ensures FinalizeAt(fn) < Loading.REACH
  {}

  lemma NormalIs(fn: Fn)
    ensures NormalOf(fn) == Emission.Normal(fn.body, BodyAt(fn), Slots(fn))
  {}

  lemma SlotsOfShape(fn: Fn)
    ensures Slots(fn.(body := W.End)) == Slots(fn)
  {
    var fn' := fn.(body := W.End);
    forall i | 0 <= i < |Slots(fn)| ensures Slots(fn')[i] == Slots(fn)[i] {
      assert Widths(fn')[i] == Widths(fn)[i];
    }
  }

  /** The compiler's pass does not look at the structured body. */
  lemma WholeOfShape(fn: Fn, n: nat, fs: seq<Emission.Flat>)
    ensures L.Whole(fn.(body := W.End), n, fs) == L.Whole(fn, n, fs)
  {
    hide L.StubEmit, StoresCode, Emission.Steps, L.Section, ResultsCode, Emission.Code, Frame;
    SlotsOfShape(fn);
    assert Frame(fn.(body := W.End)) == Frame(fn) by { Compiler.FrameIs(fn); Compiler.FrameIs(fn.(body := W.End)); }
  }

  /**
   What `Compiler.WasmFunction.Round` runs: for a body within the machine's means the round compiles, from any label
   count, and the bytes that are executed are, at whatever address, the program that `Preserved` is about.
   */
  lemma RoundRuns(fn: Fn, n: nat, args: seq<W.Value>, base: int)
    requires Loading.Fits(fn) && Emission.VarsInRange(fn.body, Slots(fn)) && |args| == |fn.params|
    ensures
      var shape, fs := fn.(body := W.End), Emission.Flatten(fn.body) + [Emission.Stop];
      && Compiler.Compiles(shape, n, Some(fs))
      && var whole := L.Whole(shape, n, fs).value;
         && whole.control == []
         && Loading.ProgramOf(Compiler.Bytes'(Patching.CodeText(PrefixCode(args)) +
             Patching.CodeText(Emission.ResolveAll(whole.items, 0, whole.labels))), base)
            == Program(base, PrefixCode(args) + FnCode(fn, NormalOf(fn)))
  {
    hide PrefixCode, FnCode, Emission.Flatten, L.Whole, Patching.CodeText, HexText.Bytes, HexText.IsHex,
         Patching.AllAccepted, NormalOf, Slots, Emission.VarsInRange, FinalizeAt, Frame;
    var e := CompilesTo(fn, n, args, base);
    WholeOfShape(fn, n, Emission.Flatten(fn.body) + [Emission.Stop]);
    assert Frame(fn.(body := W.End)) == Frame(fn) by { Compiler.FrameIs(fn); Compiler.FrameIs(fn.(body := W.End)); }
  }
}
