/** The compiler of one function: include/Wasm/WasmFunction.hpp and the files that implement its methods. */
module Compiler {
  import opened Numbers
  import opened Results
  import opened Isa
  import opened Codegen
  import opened Layout
  import opened HexText
  import opened Opcode
  import opened Emission
  import opened Patching
  import Stub
  import F = Function
  import Bytecode
  import Image
  import Linking
  import Typing

  import W = Wasm

  type Text = Result<()>

  /** A variable: the first index spaces are the parameters', the second the locals'. */
  datatype Var = Param(i: nat) | Local(i: nat)

  datatype Control = Control(name: Label, signature: seq<bool>)

  function NamesOf(control: seq<Control>): (names: seq<Label>)
    ensures |names| == |control|
  {
    seq(|control|, k requires 0 <= k < |control| => control[k].name)
  }

  /** The variable that an index of the body means, of `n` parameters. */
  function VarOf(i: nat, n: nat): Var { if i < n then Param(i) else Local(i - n) }

  lemma AddCode(e: Emit, a: seq<Instr>, b: seq<Instr>)
    ensures Add(Add(e, Code(a)), Code(b)) == Add(e, Code(a + b))
  {
    assert Code(a + b) == Code(a) + Code(b);
    assert e.items + (Code(a) + Code(b)) == e.items + Code(a) + Code(b);
  }

  // Sequences that the compiler builds as text before appending it.

  /** Storing a register on the operand stack. */
  method Push(wide: bool, reg: nat) returns (text: string)
    requires reg < 32
    ensures text == CodeText(PushCode(wide, reg))
  {
    var a := EncodeLoadStoreReg(wide, false, reg, STACK, DEPTH);
    var b := EncodeAddSubImm(true, false, DEPTH, DEPTH, 8, 0, false);
    TwoText(LdStReg(wide, false, reg, STACK, DEPTH), AddImm(DEPTH, DEPTH, 8));
    text := a.value + b.value;
  }

  lemma TwoText(i: Instr, j: Instr)
    ensures CodeText([i, j]) == InstrText(i) + InstrText(j)
  {
    hide CodeText, InstrText;
    CodeTextOne(i);
    CodeTextOne(j);
    CodeTextAppend([i], [j]);
    assert [i] + [j] == [i, j];
  }

  /** Loading a register from the operand stack; teeing puts the stack pointer back. */
  method Pop(wide: bool, tee: bool, reg: nat) returns (text: string)
    requires reg < 32
    ensures text == CodeText(if tee then TeeCode(wide, reg) else PopCode(wide, reg))
  {
    hide CodeText, InstrText;
    var a := EncodeAddSubImm(true, true, DEPTH, DEPTH, 8, 0, false);
    var b := EncodeLoadStoreReg(wide, true, reg, STACK, DEPTH);
    TwoText(SubImm(DEPTH, DEPTH, 8), LdStReg(wide, true, reg, STACK, DEPTH));
    text := a.value + b.value;
    if tee {
      var c := EncodeAddSubImm(true, false, DEPTH, DEPTH, 8, 0, false);
      CodeTextOne(AddImm(DEPTH, DEPTH, 8));
      CodeTextAppend(PopCode(wide, reg), [AddImm(DEPTH, DEPTH, 8)]);
      text := text + c.value;
    }
  }

  /** Loading a constant, 16 bits a word. */
  method MovInt(wide: bool, rd: nat, value: int) returns (r: Result<string>)
    ensures r == if rd < 32 then Ok(CodeText(MovCode(wide, rd, value))) else Err(OutOfRange)
  {
    hide CodeText, InstrText;
    var a :- EncodeMovz(rd, Half(value, 0), wide, 0);
    var b := EncodeMovk(rd, Half(value, 1), wide, 16);
    TwoText(MovWide(wide, MovZ, rd, Half(value, 0), 0), MovWide(wide, MovK, rd, Half(value, 1), 1));
    if !wide {
      return Ok(a + b.value);
    }
    var c := EncodeMovk(rd, Half(value, 2), wide, 32);
    var d := EncodeMovk(rd, Half(value, 3), wide, 48);
    TwoText(MovWide(wide, MovK, rd, Half(value, 2), 2), MovWide(wide, MovK, rd, Half(value, 3), 3));
    CodeTextAppend([MovWide(true, MovZ, rd, Half(value, 0), 0), MovWide(true, MovK, rd, Half(value, 1), 1)],
                   [MovWide(true, MovK, rd, Half(value, 2), 2), MovWide(true, MovK, rd, Half(value, 3), 3)]);
    return Ok(a + b.value + (c.value + d.value));
  }

  /** Saving or loading the six register pairs of the jump buffer. */
  method PairsText(load: bool) returns (text: string)
    ensures text == CodeText(Stub.PairsCode(load, 6))
  {
    hide CodeText, InstrText;
    text := "";
    CodeTextNone();
    for k := 0 to 6
      invariant text == CodeText(Stub.PairsCode(load, k))
    {
      var pair := EncodeLdpStp(true, load, 19 + 2 * k, 20 + 2 * k, 0, 16 * k, SignedOffset);
      ghost var i := Pair(true, load, 19 + 2 * k, 20 + 2 * k, 0, 2 * k, SignedOffset);
      CodeTextOne(i);
      CodeTextAppend(Stub.PairsCode(load, k), [i]);
      assert Stub.PairsCode(load, k + 1) == Stub.PairsCode(load, k) + [i];
      text := text + pair.value;
    }
  }

  /** The text of some code and one more instruction. */
  lemma OneMore(code: seq<Instr>, i: Instr)
    ensures CodeText(code + [i]) == CodeText(code) + InstrText(i)
  {
    hide CodeText, InstrText;
    CodeTextOne(i);
    CodeTextAppend(code, [i]);
  }

  method GetSetJmpInstr() returns (text: string)
    ensures text == CodeText(Stub.SetJmpCode())
  {
    hide CodeText, InstrText, Stub.PairsCode;
    text := PairsText(false);
    var pairs := Stub.PairsCode(false, 6);
    var a := EncodeMovSP(true, 2, 31);
    var b := EncodeLoadStoreImm(true, false, 2, 0, 104);
    var c := EncodeMovz(0, 0, false, 0);
    var d := EncodeReturn();
    text := text + a.value + b.value + c.value + d.value;
    var i, j, k, l := MovSp(2, 31), Access(true, false, 2, 0, 104), Movz(false, 0, 0), BranchReg(Ret, 30);
    OneMore(pairs, i);
    OneMore(pairs + [i], j);
    OneMore(pairs + [i] + [j], k);
    OneMore(pairs + [i] + [j] + [k], l);
    assert pairs + [i] + [j] + [k] + [l] == Stub.SetJmpCode();
  }

  method GetLongJmpInstr() returns (text: string)
    ensures text == CodeText(Stub.LongJmpCode())
  {
    hide CodeText, InstrText, Stub.PairsCode;
    text := PairsText(true);
    var pairs := Stub.PairsCode(true, 6);
    var a := EncodeLoadStoreImm(true, true, 5, 0, 104);
    var b := EncodeMovSP(true, 31, 5);
    var c := EncodeCompareImm(true, 1, 0);
    var d := EncodeMovz(0, 1, true, 0);
    var f := EncodeCsel(true, 0, 1, 0, NE);
    var g := EncodeBranchRegister(30, false);
    text := text + a.value + b.value + c.value + d.value + f.value + g.value;
    var i, j, k := Access(true, true, 5, 0, 104), MovSp(31, 5), CmpImm(true, 1, 0);
    var l, m, n := Movz(true, 0, 1), Csel(true, 0, 1, 0, NE), BranchReg(Br, 30);
    OneMore(pairs, i);
    OneMore(pairs + [i], j);
    OneMore(pairs + [i] + [j], k);
    OneMore(pairs + [i] + [j] + [k], l);
    OneMore(pairs + [i] + [j] + [k] + [l], m);
    OneMore(pairs + [i] + [j] + [k] + [l] + [m], n);
    assert pairs + [i] + [j] + [k] + [l] + [m] + [n] == Stub.LongJmpCode();
  }

  /** Variable `v` is known to live in `slot`, whose offset fits an access. */
  ghost predicate SlotKnown(v: Var, slot: Slot, vecToStack: map<Var, nat>, regTypes: map<Var, bool>) {
    && v in vecToStack && v in regTypes && vecToStack[v] == slot.off && regTypes[v] == slot.wide && slot.off < 4096
  }

  lemma AccessText(slot: Slot, load: bool)
    requires slot.off < 4096
    ensures
      var off := slot.off / (if slot.wide then 8 else 4);
      UInt16(off) == off && LdStImm(slot.wide, load, 11, 31, UInt16(off), UnsignedOffset) ==
          Access(slot.wide, load, 11, 31, slot.off)
    ensures CodeText([Access(slot.wide, load, 11, 31, slot.off)]) ==
        InstrText(Access(slot.wide, load, 11, 31, slot.off))
  {
    hide CodeText, InstrText;
    CodeTextOne(Access(slot.wide, load, 11, 31, slot.off));
  }

  lemma CompareAdds(e: Emit, wide: bool, cond: nat)
    ensures Add(Add(Add(Add(Add(Add(e, Code([Movz(true, 3, 1)])), Code([Movz(true, 4, 0)])),
        Code(PopCode(wide, 12) + PopCode(wide, 11))),
                            Code([CmpReg(wide, 11, 12)])), Code([Csel(true, 0, 3, 4, cond)])), Code(PushCode(true, 0)))
            == Add(e, Code(CompareCode(wide, cond)))
  {
    hide Add, Code, PopCode, PushCode, CmpReg;
    var a, b := [Movz(true, 3, 1)], [Movz(true, 4, 0)];
    var c, d, f := PopCode(wide, 12) + PopCode(wide, 11), [CmpReg(wide, 11, 12)], [Csel(true, 0, 3, 4, cond)];
    AddCode(e, a, b);
    AddCode(e, a + b, c);
    AddCode(e, a + b + c, d);
    AddCode(e, a + b + c + d, f);
    AddCode(e, a + b + c + d + f, PushCode(true, 0));
    assert a + b + c + d + f + PushCode(true, 0) == CompareCode(wide, cond);
  }

  lemma ArithAdds(e: Emit, wide: bool, arith: W.Arith)
    requires !arith.DivS? && !arith.DivU?
    ensures Step(e, Plain(W.Binary(wide, arith)), []) ==
            Some(Add(Add(Add(e, Code(OperandsCode(wide))), Code([ArithInstr(wide, arith)])), Code(PushCode(wide, 11))))
  {
    hide Add, Code, OperandsCode, PushCode, ArithInstr;
    AddCode(e, OperandsCode(wide), [ArithInstr(wide, arith)]);
    AddCode(e, OperandsCode(wide) + [ArithInstr(wide, arith)], PushCode(wide, 11));
  }

  /** The checks and the label, one appended after the other. */
  ghost function Checks(e: Emit, wide: bool): Emit {
    var a := Add(Add(e, Code([CmpImm(wide, 11, 0)])), [To(BCond(EQ), PrepareLongJmp)]);
    var b := Add(Add(Add(a, Code(MovCode(wide, 5, -1))), Code([CmpReg(wide, 11, 5)])), [To(BCond(NE), NormalDiv)]);
    var c := Add(Add(Add(b, Code(MovCode(wide, 5, -HalfSpan(wide)))), Code([CmpReg(wide, 12, 5)])),
        [To(BCond(NE), NormalDiv)]);
    Mark(Add(c, [To(B, PrepareLongJmp)]), NormalDiv)
  }

  lemma AddAdd(e: Emit, a: seq<Item>, b: seq<Item>)
    ensures Add(Add(e, a), b) == Add(e, a + b)
  {
    assert e.items + (a + b) == e.items + a + b;
  }

  lemma DivAdds(e: Emit, wide: bool, arith: W.Arith)
    requires arith.DivS? || arith.DivU?
    ensures Step(e, Plain(W.Binary(wide, arith)), []) ==
            Some(Add(Add(Checks(Add(e, Code(OperandsCode(wide))), wide), Code([ArithInstr(wide, arith)])),
                Code(PushCode(wide, 11))))
  {
    hide Add, Mark, Code, OperandsCode, PushCode, ArithInstr, MovCode, CmpImm, CmpReg;
    var a, b, c := OperandsCode(wide), [CmpImm(wide, 11, 0)], [To(BCond(EQ), PrepareLongJmp)];
    var d, f, g := MovCode(wide, 5, -1), [CmpReg(wide, 11, 5)], [To(BCond(NE), NormalDiv)];
    var h, i, j := MovCode(wide, 5, -HalfSpan(wide)), [CmpReg(wide, 12, 5)], [To(B, PrepareLongJmp)];
    AddCode(e, a, b);
    AddAdd(e, Code(a + b), c);
    var x := Code(a + b) + c;
    AddCode(Add(e, x), d, f);
    AddAdd(Add(e, x), Code(d + f), g);
    var y := Code(d + f) + g;
    AddAdd(e, x, y);
    AddCode(Add(e, x + y), h, i);
    AddAdd(Add(e, x + y), Code(h + i), g);
    var z := Code(h + i) + g;
    AddAdd(e, x + y, z);
    AddAdd(e, x + y + z, j);
    assert x + y + z + j == DivItems(wide);
    AddCode(Mark(Add(e, DivItems(wide)), NormalDiv), [ArithInstr(wide, arith)], PushCode(wide, 11));
  }

  lemma FrameIs(fn: Fn)
    ensures Frame(fn) == FrameSize(|fn.params|, |fn.locals|)
  {}

  lemma AddNone(e: Emit)
    ensures Add(e, Code([])) == e
  {}

  lemma StepsNone(e: Emit, slots: seq<Slot>)
    ensures Steps(e, [], slots) == Some(e)
  {}

  /** The base entry of the control stack, pushed before the body. */
  function Based(e: Emit): Emit { e.(control := e.control + [Last]) }

  /** Only instructions on variables depend on the slots. */
  lemma StepSlots(e: Emit, f: Flat, slots: seq<Slot>)
    ensures !(f.Plain? && (f.op.Get? || f.op.Put? || f.op.Tee?)) ==> Step(e, f, slots) == Step(e, f, [])
    ensures f == Plain(W.Nop) ==> Step(e, f, slots) == Some(Add(e, Code([Isa.Nop])))
    ensures f == Plain(W.Return) ==> Step(e, f, slots) == Some(Add(e, Code([])))
    ensures f.Plain? && f.op.Const? ==> Step(e, f, slots) == Some(Add(e, Code(ConstCode(f.op.wide, f.op.byte))))
    ensures f.Plain? && f.op.Compare? ==>
        Step(e, f, slots) == Some(Add(e, Code(CompareCode(f.op.wide, CondOf(f.op.cmp)))))
  {
    hide Code, ConstCode, CompareCode, DivItems, QuotientItems, GetCode, SetCode, Mark;
  }

  lemma PrepareAdds(e: Emit)
    ensures
      Add(Add(Add(Add(e, Code([MovReg(true, 14, 30)])), Code([MovSp(15, 31)])), Code([MovReg(true, 0, BUFFER)])),
          [To(B, LongJmp)])
      == Add(e, Linking.PrepareItems())
  {
    hide Add, Code, MovSp;
    var a, b, c := [MovReg(true, 14, 30)], [MovSp(15, 31)], [MovReg(true, 0, BUFFER)];
    AddCode(e, a, b);
    AddCode(e, a + b, c);
    AddAdd(e, Code(a + b + c), [To(B, LongJmp)]);
    assert a + b + c == [MovReg(true, 14, 30), MovSp(15, 31), MovReg(true, 0, BUFFER)];
  }

  lemma RaiseAdds(e: Emit)
    ensures
      Add(Add(Add(Add(e, Code([MovReg(true, 30, 14)])), Code([MovSp(31, 15)])), Code(Stub.ReturnCode(1))),
          [To(B, Label.Finalize)])
      == Add(e, Linking.RaiseItems())
  {
    hide Add, Code, MovSp, Stub.ReturnCode;
    var a, b := [MovReg(true, 30, 14)], [MovSp(31, 15)];
    AddCode(e, a, b);
    AddCode(e, a + b, Stub.ReturnCode(1));
    AddAdd(e, Code(a + b + Stub.ReturnCode(1)), [To(B, Label.Finalize)]);
    assert a + b == [MovReg(true, 30, 14), MovSp(31, 15)];
  }

  lemma StubControl(n: nat)
    ensures Linking.StubEmit(n).control == [] && Linking.StubEmit(n).next == n
  {
    hide Code, Stub.SetJmpCode, Stub.LongJmpCode, Linking.PrepareItems, Linking.RaiseItems;
  }

  lemma EntryAdds(e: Emit, fn: Fn)
    ensures
      Add(Add(Add(e, Code([SubImm(31, 31, Frame(fn))] + F.StoresCode(Slots(fn), |fn.params|, 0))),
          Code(F.SaveLinkCode())), Linking.GuardItems())
      == Add(e, Code(F.EntryCode(fn)) + Linking.GuardItems())
  {
    hide Add, Code, Frame, Slots, F.StoresCode, F.SaveLinkCode, Linking.GuardItems;
    AddCode(e, [SubImm(31, 31, Frame(fn))] + F.StoresCode(Slots(fn), |fn.params|, 0), F.SaveLinkCode());
    AddAdd(e, Code(F.EntryCode(fn)), Linking.GuardItems());
  }

  /** The head of the function, with the base entry of the control stack. */
  lemma BasedHead(fn: Fn, n: nat, e: Emit)
    requires e == Add(Mark(Linking.StubEmit(n), Label.Entry), Code(F.EntryCode(fn)) + Linking.GuardItems())
    ensures Based(e) == Linking.Head(fn, n) && e.control == []
  {
    hide Linking.StubEmit, Code, F.EntryCode, Linking.GuardItems;
    StubControl(n);
  }

  lemma WholeIs(fn: Fn, n: nat, fs: seq<Flat>, e: Emit)
    requires Steps(Linking.Head(fn, n), fs, Slots(fn)) == Some(e)
    ensures Linking.Whole(fn, n, fs) ==
            Some(Add(Mark(Add(e, Code(Stub.ReturnCode(0))), Label.Finalize),
                Code(F.ResultsCode(fn.results, 0) + [AddImm(31, 31, Frame(fn)), BranchReg(Ret, 30)])))
  {
    hide Linking.Head, Steps, Slots, Code;
  }

  lemma WholeSome(fn: Fn, n: nat, fs: Option<seq<Flat>>)
    ensures fs.Some? ==>
      (Linking.Whole(fn, n, fs.value).Some? <==> Steps(Linking.Head(fn, n), fs.value, Slots(fn)).Some?)
  {
    hide Linking.Head, Steps, Slots, Code;
  }

  lemma KnownLaid(fn: Fn, n: nat, vecToStack: map<Var, nat>, regTypes: map<Var, bool>, stackToVec: map<nat, Var>,
      was: map<nat, Var>)
    requires Known(Slots(fn), n, |Slots(fn)|, vecToStack, regTypes, stackToVec, was)
    ensures forall i :: 0 <= i < |Slots(fn)| ==> SlotKnown(VarOf(i, n), Slots(fn)[i], vecToStack, regTypes)
  {}

  /** When the compiler succeeds. */
  ghost predicate Compiles(fn: Fn, n: nat, fs: Option<seq<Flat>>) {
    && Frame(fn) < 4096 && |fn.params| <= 32 && fs.Some? && Linking.Whole(fn, n, fs.value).Some?
    && AllAccepted(Linking.Whole(fn, n, fs.value).value.items, Linking.Whole(fn, n, fs.value).value.labels)
  }

  /**
   The exception that a body ends its compilation with when it does not compile: a frame or a parameter's register that
   does not fit, an instruction that is refused, or a branch that is too far.
   */
  function Thrown(fn: Fn, codeVec: seq<W.Byte>, start: nat): Error
    requires start <= |codeVec|
  {
    if Frame(fn) >= 4096 || |fn.params| > 32 then OutOfRange
    else
      match Bytecode.Refusal(codeVec, start, |fn.params| + |fn.locals|)
      case Some(error) => error
      case None => OutOfRange
  }

  lemma NotTrapped(fn: Fn, codeVec: seq<W.Byte>, start: nat)
    requires start <= |codeVec|
    ensures Thrown(fn, codeVec, start) != Trapped
  {
    hide Frame;
    Bytecode.RefusalIs(codeVec, start, |fn.params| + |fn.locals|);
  }

  lemma ThrownIs(fn: Fn, codeVec: seq<W.Byte>, start: nat)
    requires start <= |codeVec|
    ensures Frame(fn) >= 4096 || |fn.params| > 32 ==> Thrown(fn, codeVec, start) == OutOfRange
    ensures
      var refused := Bytecode.Refusal(codeVec, start, |fn.params| + |fn.locals|);
      && (refused == None ==> Thrown(fn, codeVec, start) == OutOfRange)
      && (refused.Some? && Frame(fn) < 4096 && |fn.params| <= 32 ==> Thrown(fn, codeVec, start) == refused.value)
  {
    hide Frame, Bytecode.Refusal;
  }

  lemma ArgsMore(args: seq<W.Value>, i: nat, done: seq<Instr>)
    requires i < |args|
    ensures done + MovCode(args[i].wide, i, args[i].bits) + Image.ArgsCode(args, i + 1) ==
        done + Image.ArgsCode(args, i)
  {
    hide MovCode;
  }

  lemma NoNames(control: seq<Control>)
    ensures NamesOf(control) == [] ==> control == []
  {}

  lemma ResultsMore(results: seq<bool>, i: nat, done: seq<Instr>)
    requires i < |results|
    ensures done + PopCode(results[i], i) + F.ResultsCode(results, i + 1) == done + F.ResultsCode(results, i)
  {
    hide PopCode;
  }

  lemma ResultsEnd(results: seq<bool>)
    ensures F.ResultsCode(results, |results|) == []
  {}

  lemma WrapperAdds(e: Emit)
    ensures
      var a := Add(Add(e, Code([Pair(true, false, 29, 30, 31, -4, PreIndex)])), Code([MovReg(true, 0, BUFFER)]));
      var b := Add(Add(Add(a, [To(BL, SetJmp)]), Code([CmpImm(true, 0, 0)])), [To(BCond(NE), RaiseException)]);
      Add(b, Code([Pair(true, true, 29, 30, 31, 4, PostIndex)])) ==
          Add(Add(e, Code(F.SaveLinkCode())), Linking.GuardItems())
  {
    hide Add, Code, CmpImm;
    var c, d := [To(BL, SetJmp)], Code([CmpImm(true, 0, 0)]) + [To(BCond(NE), RaiseException)];
    AddCode(e, [Pair(true, false, 29, 30, 31, -4, PreIndex)], [MovReg(true, 0, BUFFER)]);
    var a := Add(e, Code(F.SaveLinkCode()));
    assert [Pair(true, false, 29, 30, 31, -4, PreIndex)] + [MovReg(true, 0, BUFFER)] == F.SaveLinkCode();
    AddAdd(Add(a, c), Code([CmpImm(true, 0, 0)]), [To(BCond(NE), RaiseException)]);
    AddAdd(a, c, d);
    AddAdd(a, c + d, Code(F.RestoreLinkCode()));
    assert c + d + Code(F.RestoreLinkCode()) == Linking.GuardItems();
  }

  lemma LocalStep(e: Emit, op: W.Op, i: nat, slots: seq<Slot>)
    requires op == W.Get(i) || op == W.Put(i) || op == W.Tee(i)
    ensures Step(e, Plain(op), slots) ==
            if i >= |slots| then None
            else Some(Add(e, Code(if op.Get? then GetCode(slots[i]) else SetCode(slots[i], op.Tee?))))
  {
    hide GetCode, SetCode;
  }

  lemma NamesPush(control: seq<Control>, c: Control)
    ensures NamesOf(control + [c]) == NamesOf(control) + [c.name]
  {}

  lemma NamesPop(control: seq<Control>)
    requires |control| > 0
    ensures NamesOf(control[..|control| - 1]) == NamesOf(control)[..|control| - 1]
  {}

  lemma NamesLast(control: seq<Control>)
    requires |control| > 0
    ensures NamesOf(control) == NamesOf(control)[..|control| - 1] + [control[|control| - 1].name]
  {}

  lemma ElseAdds(e: Emit, control: seq<Label>, top: Label)
    requires e.control == control + [top]
    ensures Step(e, Else, []) ==
            Some(Mark(Add(e.(control := control + [Out(e.next)], next := e.next + 1), [To(B, Out(e.next))]), top))
  {}

  lemma TestAdds(e: Emit, name: Label)
    ensures
      var e' := e.(control := e.control + [name], next := e.next + 1);
      Add(Add(Add(e', Code(TeeCode(false, 11))), Code([CmpImm(false, 11, 0)])), [To(BCond(EQ), name)])
      == Add(e, TestItems(name)).(control := e.control + [name], next := e.next + 1)
  {
    var e' := e.(control := e.control + [name], next := e.next + 1);
    AddCode(e', TeeCode(false, 11), [CmpImm(false, 11, 0)]);
    AddAdd(e', Code(TeeCode(false, 11) + [CmpImm(false, 11, 0)]), [To(BCond(EQ), name)]);
  }

  /**
   The first `k` variables are in the maps, both ways: their slots and types are known, and the slot leads back to the
   variable. `was` is the reverse map before.
   */
  ghost predicate Known(slots: seq<Slot>, n: nat, k: nat, vecToStack: map<Var, nat>, regTypes: map<Var, bool>,
                        stackToVec: map<nat, Var>, was: map<nat, Var>)
    requires k <= |slots|
  {
    && (forall i :: 0 <= i < k ==>
      SlotKnown(VarOf(i, n), slots[i], vecToStack, regTypes) && slots[i].off in stackToVec
          && stackToVec[slots[i].off] == VarOf(i, n))
    && forall off :: off in stackToVec ==> off in was || exists i :: 0 <= i < k && off == slots[i].off
  }

  lemma KnownNone(slots: seq<Slot>, n: nat, vecToStack: map<Var, nat>, regTypes: map<Var, bool>, was: map<nat, Var>)
    ensures Known(slots, n, 0, vecToStack, regTypes, was, was)
  {}

  /** The slot of variable `i`. */
  lemma SlotIs(fn: Fn, i: nat)
    requires i < |fn.params| + |fn.locals|
    ensures Slots(fn)[i].wide == (if i < |fn.params| then fn.params[i] else fn.locals[i - |fn.params|])
    ensures Slots(fn)[i].off == OffsetOf(|fn.params|, |fn.locals|, i)
        && Slots(fn)[i].off <= LocalEnd(|fn.params|, |fn.locals|)
    ensures Slots(fn)[i].off <= Frame(fn)
  {}

  /** The maps have variable `v` of the given width at `off`, and lead back from there. */
  ghost predicate PlacedAt(v: Var, off: nat, wide: bool, vecToStack: map<Var, nat>, regTypes: map<Var, bool>,
                           stackToVec: map<nat, Var>) {
    && v in vecToStack && vecToStack[v] == off && v in regTypes && regTypes[v] == wide
    && off in stackToVec && stackToVec[off] == v
  }

  lemma KnownAt(fn: Fn, i: nat, vecToStack: map<Var, nat>, regTypes: map<Var, bool>, stackToVec: map<nat, Var>,
                was: map<nat, Var>)
    requires Known(Slots(fn), |fn.params|, |Slots(fn)|, vecToStack, regTypes, stackToVec, was) && i < |Slots(fn)|
    ensures PlacedAt(VarOf(i, |fn.params|), Slots(fn)[i].off, Slots(fn)[i].wide, vecToStack, regTypes, stackToVec)
  {
    hide Slots;
  }

  /**
   The maps in plain numbers: parameter `i` of `n` is at `4 * (n - i)`, local `j` of `m` at `4 * n + 8 + 4 * (m - j)`.
   */
  lemma KnownPlaces(fn: Fn, vecToStack: map<Var, nat>, regTypes: map<Var, bool>, stackToVec: map<nat, Var>,
                    was: map<nat, Var>)
    requires Known(Slots(fn), |fn.params|, |fn.params| + |fn.locals|, vecToStack, regTypes, stackToVec, was)
    ensures
      var n, m := |fn.params|, |fn.locals|;
      && (forall i :: 0 <= i < n ==>
        PlacedAt(Param(i), 4 * (n - i), fn.params[i], vecToStack, regTypes, stackToVec))
      && forall j :: 0 <= j < m ==>
        PlacedAt(Local(j), 4 * n + 8 + 4 * (m - j), fn.locals[j], vecToStack, regTypes, stackToVec)
  {
    hide Known, PlacedAt, Slots;
    var n, m := |fn.params|, |fn.locals|;
    SlotPlaces(fn);
    forall i | 0 <= i < n ensures PlacedAt(Param(i), 4 * (n - i), fn.params[i], vecToStack, regTypes, stackToVec) {
      KnownAt(fn, i, vecToStack, regTypes, stackToVec, was);
    }
    forall j | 0 <= j < m
      ensures PlacedAt(Local(j), 4 * n + 8 + 4 * (m - j), fn.locals[j], vecToStack, regTypes, stackToVec)
    {
      KnownAt(fn, n + j, vecToStack, regTypes, stackToVec, was);
    }
  }

  lemma SlotsDiffer(fn: Fn)
    ensures forall i, j :: 0 <= i < j < |Slots(fn)| ==> Slots(fn)[i].off != Slots(fn)[j].off
  {
    forall i, j | 0 <= i < j < |Slots(fn)| ensures Slots(fn)[i].off != Slots(fn)[j].off {
      OffsetsDiffer(|fn.params|, |fn.locals|, i, j);
    }
  }

  /** Entering one more variable in the maps; the offsets differ, so no earlier entry is overwritten. */
  lemma KnownMore(fn: Fn, k: nat, vecToStack: map<Var, nat>, regTypes: map<Var, bool>, stackToVec: map<nat, Var>,
                  vecToStack': map<Var, nat>, regTypes': map<Var, bool>, stackToVec': map<nat, Var>, was: map<nat, Var>)
    requires k < |Slots(fn)| && Frame(fn) < 4096
        && Known(Slots(fn), |fn.params|, k, vecToStack, regTypes, stackToVec, was)
    requires vecToStack' == vecToStack[VarOf(k, |fn.params|) := Slots(fn)[k].off]
    requires regTypes' == regTypes[VarOf(k, |fn.params|) := Slots(fn)[k].wide]
    requires stackToVec' == stackToVec[Slots(fn)[k].off := VarOf(k, |fn.params|)]
    ensures Known(Slots(fn), |fn.params|, k + 1, vecToStack', regTypes', stackToVec', was)
  {
    hide Slots, Frame;
    var s, n := Slots(fn), |fn.params|;
    SlotsDiffer(fn);
    SlotIs(fn, k);
    assert SlotKnown(VarOf(k, n), s[k], vecToStack', regTypes');
    forall i | 0 <= i < k
      ensures SlotKnown(VarOf(i, n), s[i], vecToStack', regTypes') && s[i].off in stackToVec'
          && stackToVec'[s[i].off] == VarOf(i, n)
    {
      assert SlotKnown(VarOf(i, n), s[i], vecToStack, regTypes) && VarOf(i, n) != VarOf(k, n) && s[i].off != s[k].off;
    }
    forall off | off in stackToVec' ensures off in was || exists i :: 0 <= i < k + 1 && off == s[i].off {
      if off !in stackToVec {
        assert off == s[k].off;
      }
    }
  }

  /** The stores of variables `from` up to `k` have been appended. */
  ghost predicate Stored(slots: seq<Slot>, n: nat, from: nat, k: nat, e: Emit, e': Emit)
    requires from <= |slots| && k <= |slots|
  {
    exists done: seq<Instr> :: e' == Add(e, Code(done))
        && done + F.StoresCode(slots, n, k) == F.StoresCode(slots, n, from)
  }

  lemma StoredNone(slots: seq<Slot>, n: nat, from: nat, e: Emit)
    requires from <= |slots|
    ensures Stored(slots, n, from, from, e, e)
  {
    assert e == Add(e, Code([])) && [] + F.StoresCode(slots, n, from) == F.StoresCode(slots, n, from);
  }

  lemma StoredMore(slots: seq<Slot>, n: nat, from: nat, k: nat, e: Emit, e': Emit, e'': Emit)
    requires from <= |slots| && k < |slots| && Stored(slots, n, from, k, e, e')
    requires e'' == Add(e', Code([Access(slots[k].wide, false, if k < n then k else 31, 31, slots[k].off)]))
    ensures Stored(slots, n, from, k + 1, e, e'')
  {
    var done: seq<Instr> :| e' == Add(e, Code(done))
        && done + F.StoresCode(slots, n, k) == F.StoresCode(slots, n, from);
    var one := [Access(slots[k].wide, false, if k < n then k else 31, 31, slots[k].off)];
    AddCode(e, done, one);
    assert done + (one + F.StoresCode(slots, n, k + 1)) == done + one + F.StoresCode(slots, n, k + 1);
  }

  lemma StoredAll(slots: seq<Slot>, n: nat, e: Emit, e': Emit, e'': Emit)
    requires n <= |slots| && Stored(slots, n, 0, n, e, e') && Stored(slots, n, n, |slots|, e', e'')
    ensures e'' == Add(e, Code(F.StoresCode(slots, n, 0)))
  {
    var a: seq<Instr> :| e' == Add(e, Code(a)) && a + F.StoresCode(slots, n, n) == F.StoresCode(slots, n, 0);
    var b: seq<Instr> :| e'' == Add(e', Code(b)) && b + F.StoresCode(slots, n, |slots|) == F.StoresCode(slots, n, n);
    assert b == F.StoresCode(slots, n, n);
    AddCode(e, a, b);
  }

  /** A store to a slot of a frame that fits. */
  lemma AccessFits(slot: Slot, rt: nat)
    requires slot.off < 4096
    ensures
      var off := slot.off / (if slot.wide then 8 else 4);
      UInt16(off) == off < 4096 && LdStImm(slot.wide, false, rt, 31, UInt16(off), UnsignedOffset) ==
          Access(slot.wide, false, rt, 31, slot.off)
  {}

  /** The type that a byte declares, if it is one of the integer types. */
  function TypeOf(b: W.Byte): seq<bool> { if b == 0x7F then [false] else if b == 0x7E then [true] else [] }

  function Repeat(ts: seq<bool>, n: nat): seq<bool> { if n == 0 then [] else Repeat(ts, n - 1) + ts }

  /** The locals that the first `k` declarations of a body declare. */
  function Declared(bs: seq<W.Byte>, k: nat): seq<bool>
    requires 2 * k <= |bs|
  {
    if k == 0 then [] else Declared(bs, k - 1) + Repeat(TypeOf(bs[2 * k - 1]), bs[2 * k - 2])
  }

  // Writing declarations: section 5.5.13 of WebAssembly Core Specification 1.0, for counts below 128.

  /** `count` locals of one integer type. */
  datatype Declaration = Declaration(count: W.Byte, wide: bool)

  function DeclarationBytes(ds: seq<Declaration>): (bs: seq<W.Byte>)
    ensures |bs| == 2 * |ds|
    decreases |ds|
  {
    if ds == [] then []
    else DeclarationBytes(ds[..|ds| - 1]) + [ds[|ds| - 1].count, if ds[|ds| - 1].wide then 0x7E else 0x7F]
  }

  /** The number of locals of the first `d` declarations. */
  function Before(ds: seq<Declaration>, d: nat): nat
    requires d <= |ds|
  {
    if d == 0 then 0 else Before(ds, d - 1) + ds[d - 1].count
  }

  lemma {:induction false} RepeatIs(wide: bool, n: nat)
    ensures |Repeat([wide], n)| == n && forall j :: 0 <= j < n ==> Repeat([wide], n)[j] == wide
    decreases n
  {
    if n > 0 {
      RepeatIs(wide, n - 1);
    }
  }

  lemma {:induction false} BeforeLess(ds: seq<Declaration>, k: nat, d: nat)
    requires d <= k <= |ds|
    ensures Before(ds[..k], d) == Before(ds, d)
    decreases d
  {
    if d > 0 {
      BeforeLess(ds, k, d - 1);
    }
  }

  lemma DeclarationParts(ds: seq<Declaration>)
    requires 0 < |ds|
    ensures
      var k, last := |ds| - 1, ds[|ds| - 1];
      DeclarationBytes(ds) == DeclarationBytes(ds[..k]) + [last.count, if last.wide then 0x7E else 0x7F]
  {}

  lemma Cut(bs: seq<W.Byte>, front: seq<W.Byte>, a: W.Byte, b: W.Byte)
    requires |front| + 2 <= |bs| && bs[..|front| + 2] == front + [a, b]
    ensures bs[..|front|] == front && bs[|front|] == a && bs[|front| + 1] == b
  {
    var n := |front|;
    assert bs[..n] == bs[..n + 2][..n];
    assert bs[n] == bs[..n + 2][n] && bs[n + 1] == bs[..n + 2][n + 1];
  }

  lemma DeclaredStep(bs: seq<W.Byte>, k: nat)
    requires 2 * (k + 1) <= |bs|
    ensures Declared(bs, k + 1) == Declared(bs, k) + Repeat(TypeOf(bs[2 * k + 1]), bs[2 * k])
  {
    hide Repeat, TypeOf;
  }

  /** The bytes of the last declaration, and those before. */
  lemma LastDeclaration(bs: seq<W.Byte>, ds: seq<Declaration>)
    requires 0 < |ds| && 2 * |ds| <= |bs| && bs[..2 * |ds|] == DeclarationBytes(ds)
    ensures
      var k, last := |ds| - 1, ds[|ds| - 1];
      && bs[..2 * k] == DeclarationBytes(ds[..k])
      && Declared(bs, |ds|) == Declared(bs, k) + Repeat([last.wide], last.count)
  {
    hide Repeat, DeclarationBytes, Declared;
    var k, last := |ds| - 1, ds[|ds| - 1];
    DeclarationParts(ds);
    DeclaredStep(bs, k);
    Cut(bs, DeclarationBytes(ds[..k]), last.count, if last.wide then 0x7E else 0x7F);
  }

  /** Written declarations declare as many locals as their counts say, whatever follows them. */
  lemma {:induction false} DeclaredCount(bs: seq<W.Byte>, ds: seq<Declaration>)
    requires 2 * |ds| <= |bs| && bs[..2 * |ds|] == DeclarationBytes(ds)
    ensures |Declared(bs, |ds|)| == Before(ds, |ds|)
    decreases |ds|
  {
    hide DeclarationBytes;
    if ds != [] {
      var k := |ds| - 1;
      LastDeclaration(bs, ds);
      DeclaredCount(bs, ds[..k]);
      RepeatIs(ds[k].wide, ds[k].count);
      BeforeLess(ds, k, k);
    }
  }

  /** Local `j` of declaration `d`, behind those of the declarations before, has its type. */
  lemma {:induction false} DeclaredAt(bs: seq<W.Byte>, ds: seq<Declaration>, d: nat, j: nat)
    requires 2 * |ds| <= |bs| && bs[..2 * |ds|] == DeclarationBytes(ds) && d < |ds| && j < ds[d].count
    ensures Before(ds, d) + j < |Declared(bs, |ds|)| && Declared(bs, |ds|)[Before(ds, d) + j] == ds[d].wide
    decreases |ds|
  {
    hide DeclarationBytes;
    var k := |ds| - 1;
    LastDeclaration(bs, ds);
    DeclaredCount(bs, ds[..k]);
    RepeatIs(ds[k].wide, ds[k].count);
    BeforeLess(ds, k, d);
    if d < k {
      DeclaredAt(bs, ds[..k], d, j);
    }
  }

  class WasmFunction {
    var wasmInstructions: string
    var preInstructions: string
    var fakes: multiset<Fake>
    var labels: map<Label, nat>
    var control: seq<Control>
    var ifLabel: nat

    var params: seq<W.Value>
    var locals: seq<bool>
    var results: seq<bool>
    var codeVec: seq<W.Byte>
    var declares: nat

    var paramEnd: nat
    var localEnd: nat
    var stackSize: nat
    var vecToStack: map<Var, nat>
    var stackToVec: map<nat, Var>
    var regTypes: map<Var, bool>

    /** What has been emitted, in words. */
    ghost var e: Emit

    ghost predicate Valid()
      reads this
    {
      && wasmInstructions == ItemsText(e.items) && fakes == Fakes(e.items)
      && InWords(labels, e.labels)
      && NamesOf(control) == e.control && ifLabel == e.next
    }

    constructor (params: seq<W.Value>, results: seq<bool>, codeVec: seq<W.Byte>, declares: nat)
      ensures Valid() && e == Emit([], map[], [], 0) && preInstructions == "" && locals == []
      ensures this.params == params && this.results == results && this.codeVec == codeVec && this.declares == declares
    {
      wasmInstructions, preInstructions, fakes, labels, control, ifLabel := "", "", multiset{}, map[], [], 0;
      this.params, locals, this.results, this.codeVec, this.declares := params, [], results, codeVec, declares;
      paramEnd, localEnd, stackSize, vecToStack, stackToVec, regTypes := 0, 0, 0, map[], map[], map[];
      e := Emit([], map[], [], 0);
    }

    // Appending.

    method ConstructFullInstr(text: string, ghost code: seq<Instr>)
      requires Valid() && text == CodeText(code)
      modifies `wasmInstructions, `e
      ensures Valid() && e == Add(old(e), Code(code))
    {
      ItemsTextCode(code);
      ItemsTextAppend(e.items, Code(code));
      FakesCode(e.items, code);
      wasmInstructions := wasmInstructions + text;
      e := Add(e, Code(code));
    }

    method Append(r: Result<string>, ghost i: Instr)
      requires Valid() && r == Ok(InstrText(i))
      modifies `wasmInstructions, `e
      ensures Valid() && e == Add(old(e), Code([i]))
    {
      CodeTextOne(i);
      ConstructFullInstr(r.value, [i]);
    }

    method FakeInsertBranch(name: Label, kind: Kind)
      requires Valid()
      modifies `wasmInstructions, `fakes, `e
      ensures Valid() && e == Add(old(e), [To(kind, name)])
    {
      ItemsTextLength(e.items);
      ItemsTextAppend(e.items, [To(kind, name)]);
      ItemsTextOne(To(kind, name));
      FakesBranch(e.items, kind, name);
      var location := |wasmInstructions|;
      wasmInstructions := wasmInstructions + PLACEHOLDER;
      fakes := fakes + multiset{Fake(name, location, kind)};
      e := Add(e, [To(kind, name)]);
    }

    method InsertLabel(name: Label)
      requires Valid()
      modifies `labels, `e
      ensures Valid() && e == Mark(old(e), name)
    {
      ItemsTextLength(e.items);
      if name !in labels {
        labels := labels[name := |wasmInstructions|];
      }
      e := Mark(e, name);
    }

    // Emitting the instructions of the body.

    ghost function Shape(): Fn
      reads `params, `locals, `results
    {
      Fn(Typing.Types(params), locals, results, W.End)
    }

    /** Every variable's slot and register type are in the maps, and the slots can be addressed. */
    ghost predicate Laid()
      reads `params, `locals, `results, `vecToStack, `regTypes
    {
      forall i :: 0 <= i < |params| + |locals| ==>
          SlotKnown(VarOf(i, |params|), Slots(Shape())[i], vecToStack, regTypes)
    }

    method EmitGet(v: Var, ghost slot: Slot)
      requires Valid() && SlotKnown(v, slot, vecToStack, regTypes)
      modifies `wasmInstructions, `e
      ensures Valid() && e == Add(old(e), Code(GetCode(slot)))
    {
      var wide, offset := regTypes[v], vecToStack[v];
      var load := EncodeLoadStoreImm(wide, true, 11, 31, offset);
      var store := Push(wide, 11);
      AccessText(slot, true);
      CodeTextAppend([Access(slot.wide, true, 11, 31, slot.off)], PushCode(slot.wide, 11));
      ConstructFullInstr(load.value + store, GetCode(slot));
    }

    method EmitSet(v: Var, isTee: bool, ghost slot: Slot)
      requires Valid() && SlotKnown(v, slot, vecToStack, regTypes)
      modifies `wasmInstructions, `e
      ensures Valid() && e == Add(old(e), Code(SetCode(slot, isTee)))
    {
      var wide, offset := regTypes[v], vecToStack[v];
      var load := Pop(wide, isTee, 11);
      var store := EncodeLoadStoreImm(wide, false, 11, 31, offset);
      AccessText(slot, false);
      CodeTextAppend(if isTee then TeeCode(slot.wide, 11)
          else PopCode(slot.wide, 11), [Access(slot.wide, false, 11, 31, slot.off)]);
      ConstructFullInstr(load + store.value, SetCode(slot, isTee));
    }

    /** An instruction on variable `index`, which must be there. */
    method CommonLocalOp(index: nat, op: W.Op) returns (r: Text)
      requires Valid() && Laid() && (op == W.Get(index) || op == W.Put(index) || op == W.Tee(index))
      modifies `wasmInstructions, `e
      ensures Valid() && r.Ok? == Step(old(e), Plain(op), Slots(Shape())).Some?
      ensures r.Ok? ==> Step(old(e), Plain(op), Slots(Shape())) == Some(e)
      ensures r == (if index < |params| + |locals| then Ok(()) else Err(BadIndex)) && (r.Err? ==> e == old(e))
    {
      hide Step, Add, Code, Slots, SlotKnown, GetCode, SetCode;
      LocalStep(e, op, index, Slots(Shape()));
      if index >= |params| + |locals| {
        return Err(BadIndex);
      }
      var v := if index < |params| then Param(index) else Local(index - |params|);
      ghost var slot := Slots(Shape())[index];
      match op {
        case Get(_) => EmitGet(v, slot);
        case Put(_) => EmitSet(v, false, slot);
        case Tee(_) => EmitSet(v, true, slot);
      }
      return Ok(());
    }

    method EmitConst(wide: bool, value: int)
      requires Valid()
      modifies `wasmInstructions, `e
      ensures Valid() && e == Add(old(e), Code(ConstCode(wide, value)))
    {
      var load := MovInt(wide, 11, value);
      var store := Push(wide, 11);
      CodeTextAppend(MovCode(wide, 11, value), PushCode(wide, 11));
      ConstructFullInstr(load.value + store, ConstCode(wide, value));
    }

    method EmitCompareOp(wide: bool, cmp: W.Cmp)
      requires Valid()
      modifies `wasmInstructions, `e
      ensures Valid() && e == Add(old(e), Code(CompareCode(wide, CondOf(cmp))))
    {
      hide Add, Code, InstrText, CodeText;
      var cond := CondOf(cmp);
      var one := EncodeMovz(3, 1, true);
      var zero := EncodeMovz(4, 0, true);
      Append(one, Movz(true, 3, 1));
      Append(zero, Movz(true, 4, 0));
      var b := Pop(wide, false, 12);
      var a := Pop(wide, false, 11);
      CodeTextAppend(PopCode(wide, 12), PopCode(wide, 11));
      ConstructFullInstr(b + a, PopCode(wide, 12) + PopCode(wide, 11));
      var cmpText := EncodeCompareShift(wide, 11, 12);
      Append(cmpText, CmpReg(wide, 11, 12));
      var csel := EncodeCsel(true, 0, 3, 4, cond);
      Append(csel, Csel(true, 0, 3, 4, cond));
      var push := Push(true, 0);
      ConstructFullInstr(push, PushCode(true, 0));
      CompareAdds(old(e), wide, cond);
    }

    method EmitArithOp(wide: bool, arith: W.Arith)
      requires Valid()
      modifies `wasmInstructions, `fakes, `labels, `e
      ensures Valid() && Step(old(e), Plain(W.Binary(wide, arith)), []) == Some(e)
    {
      hide Add, Mark, Code, InstrText, CodeText, MovCode;
      var b := Pop(wide, false, 11);
      var a := Pop(wide, false, 12);
      CodeTextAppend(PopCode(wide, 11), PopCode(wide, 12));
      ConstructFullInstr(b + a, OperandsCode(wide));
      var text: Result<string>;
      match arith {
        case Add => text := EncodeAddSubShift(false, wide, 11, 12, 11, 0, 0, false);
        case Sub => text := EncodeAddSubShift(true, wide, 11, 12, 11, 0, 0, false);
        case Mul => text := EncodeMul(wide, 11, 12, 11);
        case DivS =>
          EmitDivisionChecks(wide);
          text := EncodeDiv(wide, true, 11, 12, 11);
        case DivU =>
          EmitDivisionChecks(wide);
          text := EncodeDiv(wide, false, 11, 12, 11);
      }
      Append(text, ArithInstr(wide, arith));
      var push := Push(wide, 11);
      ConstructFullInstr(push, PushCode(wide, 11));
      if arith.DivS? || arith.DivU? {
        DivAdds(old(e), wide, arith);
      } else {
        ArithAdds(old(e), wide, arith);
      }
    }

    /** The checks before a division and its label. */
    method EmitDivisionChecks(wide: bool)
      requires Valid()
      modifies `wasmInstructions, `fakes, `labels, `e
      ensures Valid() && e == Checks(old(e), wide)
    {
      hide Add, Mark, Code, InstrText, CodeText, MovCode;
      var zero := EncodeCompareImm(wide, 11, 0);
      Append(zero, CmpImm(wide, 11, 0));
      FakeInsertBranch(PrepareLongJmp, BCond(EQ));
      var minusOne := MovInt(wide, 5, -1);
      ConstructFullInstr(minusOne.value, MovCode(wide, 5, -1));
      var divisor := EncodeCompareShift(wide, 11, 5);
      Append(divisor, CmpReg(wide, 11, 5));
      FakeInsertBranch(NormalDiv, BCond(NE));
      var least := MovInt(wide, 5, -HalfSpan(wide));
      ConstructFullInstr(least.value, MovCode(wide, 5, -HalfSpan(wide)));
      var dividend := EncodeCompareShift(wide, 12, 5);
      Append(dividend, CmpReg(wide, 12, 5));
      FakeInsertBranch(NormalDiv, BCond(NE));
      FakeInsertBranch(PrepareLongJmp, B);
      InsertLabel(NormalDiv);
    }

    method EmitIfOp(block: W.Block)
      requires Valid()
      modifies `wasmInstructions, `fakes, `control, `ifLabel, `e
      ensures Valid() && Step(old(e), If(block), []) == Some(e)
    {
      hide Code, InstrText, CodeText, ItemsText, Fakes, InWords, Typing.Results;
      NamesPush(control, Control(Arm(ifLabel), Typing.Results(block)));
      var name := Arm(ifLabel);
      ifLabel := ifLabel + 1;
      control := control + [Control(name, Typing.Results(block))];
      e := e.(control := e.control + [name], next := e.next + 1);
      var condition := Pop(false, true, 11);
      ConstructFullInstr(condition, TeeCode(false, 11));
      var test := EncodeCompareImm(false, 11, 0);
      Append(test, CmpImm(false, 11, 0));
      FakeInsertBranch(name, BCond(EQ));
      TestAdds(old(e), name);
    }

    method EmitElseOp()
      requires Valid() && |control| > 0
      modifies `wasmInstructions, `fakes, `labels, `control, `ifLabel, `e
      ensures Valid() && Step(old(e), Else, []) == Some(e)
    {
      hide Step, Add, Mark, NamesOf;
      var top := control[|control| - 1];
      NamesPop(control);
      NamesLast(control);
      ElseAdds(e, e.control[..|e.control| - 1], top.name);
      control := control[..|control| - 1];
      var name := Out(ifLabel);
      ifLabel := ifLabel + 1;
      NamesPush(control, Control(name, top.signature));
      control := control + [Control(name, top.signature)];
      e := e.(control := e.control[..|e.control| - 1] + [name], next := e.next + 1);
      FakeInsertBranch(name, B);
      InsertLabel(top.name);
    }

    method EmitEndOp()
      requires Valid() && |control| > 0
      modifies `labels, `control, `e
      ensures Valid() && Step(old(e), Stop, []) == Some(e)
    {
      var top := control[|control| - 1];
      control := control[..|control| - 1];
      e := e.(control := e.control[..|e.control| - 1]);
      InsertLabel(top.name);
    }

    // The frame.

    /** Appends the declared locals; those of earlier compilations stay. */
    method LocalVarInitialize() returns (offset: nat)
      requires 2 * declares <= |codeVec|
      modifies `locals
      ensures offset == 2 * declares && locals == old(locals) + Declared(codeVec, declares)
    {
      offset := 0;
      for i := 0 to declares
        invariant offset == 2 * i && locals == old(locals) + Declared(codeVec, i)
      {
        var count, kind := codeVec[offset], codeVec[offset + 1];
        for j := 0 to count
          invariant locals == old(locals) + Declared(codeVec, i) + Repeat(TypeOf(kind), j)
        {
          locals := locals + TypeOf(kind);
        }
        offset := offset + 2;
      }
    }

    method GetStackPreallocateSize()
      modifies `paramEnd, `localEnd, `stackSize
      ensures paramEnd == ParamEnd(|params|) && localEnd == LocalEnd(|params|, |locals|)
      ensures stackSize == FrameSize(|params|, |locals|)
      ensures paramEnd == 4 * |params| && localEnd == 4 * |params| + 8 + 4 * |locals|
      ensures stackSize % 16 == 0 && localEnd <= stackSize < localEnd + 16
    {
      FrameLeast(|params|, |locals|);
      paramEnd := 0;
      for i := 0 to |params|
        invariant paramEnd == 4 * i
      {
        paramEnd := paramEnd + 4;
      }
      localEnd := paramEnd + 8;
      for i := 0 to |locals|
        invariant paramEnd == 4 * |params| && localEnd == paramEnd + 8 + 4 * i
      {
        localEnd := localEnd + 4;
      }
      stackSize := if localEnd % 16 != 0 then 16 * (localEnd / 16 + 1) else localEnd;
    }

    /** `sub sp, sp, #stackSize`: a frame of 4096 bytes or more does not fit the immediate. */
    method PrepareSp() returns (r: Text)
      requires Valid() && stackSize < 0x1_0000
      modifies `wasmInstructions, `e
      ensures Valid() && (r.Ok? <==> stackSize < 4096) && (r.Err? ==> r == Err(OutOfRange))
      ensures r.Ok? ==> e == Add(old(e), Code([SubImm(31, 31, stackSize)]))
    {
      hide InstrText, Add, Code;
      var text := EncodeAddSubImm(true, true, 31, 31, UInt16(stackSize), 0, false);
      if text.Err? {
        return Err(text.error);
      }
      Append(text, SubImm(31, 31, stackSize));
      return Ok(());
    }

    /** Maps a variable to its slot and stores register `reg` there. */
    method StoreVar(v: Var, wide: bool, reg: nat, offset: nat, ghost k: nat, ghost from: nat, ghost e0: Emit,
        ghost was: map<nat, Var>)
      returns (r: Text)
      requires Valid() && Frame(Shape()) < 4096 && from <= k < |Slots(Shape())|
          && Slots(Shape())[k] == Slot(wide, offset)
      requires v == VarOf(k, |params|) && reg == if k < |params| then k else 31
      requires Known(Slots(Shape()), |params|, k, vecToStack, regTypes, stackToVec, was)
      requires Stored(Slots(Shape()), |params|, from, k, e0, e)
      modifies `wasmInstructions, `e, `vecToStack, `stackToVec, `regTypes
      ensures Valid() && (r.Ok? <==> reg < 32) && (r.Err? ==> r == Err(OutOfRange))
      ensures r.Ok? ==> Known(Slots(Shape()), |params|, k + 1, vecToStack, regTypes, stackToVec, was)
      ensures r.Ok? ==> Stored(Slots(Shape()), |params|, from, k + 1, e0, e)
    {
      hide Add, Code, Slots, Known, Stored, InstrText, Frame, ItemsText, Fakes, InWords, UInt16, Access,
           NamesOf, Typing.Types, SlotKnown;
      SlotIs(Shape(), k);
      AccessFits(Slot(wide, offset), reg);
      KnownMore(Shape(), k, vecToStack, regTypes, stackToVec, vecToStack[v := offset], regTypes[v := wide],
          stackToVec[offset := v], was);
      vecToStack := vecToStack[v := offset];
      stackToVec := stackToVec[offset := v];
      var text := EncodeLoadStoreImm(wide, false, reg, 31, offset);
      if text.Err? {
        return Err(text.error);
      }
      regTypes := regTypes[v := wide];
      ghost var before := e;
      Append(text, Access(wide, false, reg, 31, offset));
      StoredMore(Slots(Shape()), |params|, from, k, e0, before, e);
      return Ok(());
    }

    /** Maps the parameters to their slots and stores them there, the first from x0. */
    method InitParam() returns (r: Text)
      requires Valid() && paramEnd == ParamEnd(|params|) && Frame(Shape()) < 4096
      modifies `wasmInstructions, `e, `vecToStack, `stackToVec, `regTypes
      ensures Valid() && (r.Ok? <==> |params| <= 32) && (r.Err? ==> r == Err(OutOfRange))
      ensures r.Ok? ==> Known(Slots(Shape()), |params|, |params|, vecToStack, regTypes, stackToVec, old(stackToVec))
      ensures r.Ok? ==> Stored(Slots(Shape()), |params|, 0, |params|, old(e), e)
    {
      hide Slots, Known, Stored, Frame;
      var offset: int := paramEnd;
      KnownNone(Slots(Shape()), |params|, vecToStack, regTypes, stackToVec);
      StoredNone(Slots(Shape()), |params|, 0, e);
      for i := 0 to |params|
        invariant Valid() && i <= 32 && offset == ParamEnd(|params|) - 4 * i
        invariant Known(Slots(Shape()), |params|, i, vecToStack, regTypes, stackToVec, old(stackToVec))
        invariant Stored(Slots(Shape()), |params|, 0, i, old(e), e)
      {
        SlotIs(Shape(), i);
        var _ :- StoreVar(Param(i), params[i].wide, i, offset, i, 0, old(e), old(stackToVec));
        offset := offset - 4;
      }
      return Ok(());
    }

    /** Maps the locals to their slots and stores zeros there. */
    method InitLocal(ghost was: map<nat, Var>)
      requires Valid() && localEnd == LocalEnd(|params|, |locals|) && Frame(Shape()) < 4096
      requires Known(Slots(Shape()), |params|, |params|, vecToStack, regTypes, stackToVec, was)
      modifies `wasmInstructions, `e, `vecToStack, `stackToVec, `regTypes
      ensures Valid() && Known(Slots(Shape()), |params|, |params| + |locals|, vecToStack, regTypes, stackToVec, was)
      ensures Stored(Slots(Shape()), |params|, |params|, |params| + |locals|, old(e), e)
    {
      hide Slots, Known, Stored, Frame;
      var offset: int := localEnd;
      StoredNone(Slots(Shape()), |params|, |params|, e);
      for i := 0 to |locals|
        invariant Valid() && offset == LocalEnd(|params|, |locals|) - 4 * i
        invariant Known(Slots(Shape()), |params|, |params| + i, vecToStack, regTypes, stackToVec, was)
        invariant Stored(Slots(Shape()), |params|, |params|, |params| + i, old(e), e)
      {
        SlotIs(Shape(), |params| + i);
        var _ := StoreVar(Local(i), locals[i], 31, offset, |params| + i, |params|, old(e), was);
        offset := offset - 4;
      }
    }

    /** Computes the frame and emits the code that sets it up. */
    method MainEntryInitialize() returns (r: Text)
      requires Valid() && FrameSize(|params|, |locals|) < 0x1_0000
      modifies `wasmInstructions, `e, `paramEnd, `localEnd, `stackSize, `vecToStack, `stackToVec, `regTypes
      ensures Valid() && (r.Ok? <==> Frame(Shape()) < 4096 && |params| <= 32) && stackSize == Frame(Shape())
      ensures r.Err? ==> r == Err(OutOfRange)
      ensures r.Ok? ==> Known(Slots(Shape()), |params|, |params|
          + |locals|, vecToStack, regTypes, stackToVec, old(stackToVec))
      ensures r.Ok? ==> e == Add(old(e), Code([SubImm(31, 31, stackSize)] + F.StoresCode(Slots(Shape()), |params|, 0)))
    {
      hide Slots, Known, Stored, Add, Code, Frame, InWords, ItemsText, Fakes;
      FrameIs(Shape());
      GetStackPreallocateSize();
      var _ :- PrepareSp();
      ghost var e1 := e;
      var _ :- InitParam();
      ghost var e2 := e;
      InitLocal(old(stackToVec));
      StoredAll(Slots(Shape()), |params|, e1, e2, e);
      AddCode(old(e), [SubImm(31, 31, stackSize)], F.StoresCode(Slots(Shape()), |params|, 0));
      return Ok(());
    }

    /** The results from the operand stack into x0 and up. */
    method RestoreSP()
      requires Valid() && |results| <= 32 && stackSize < 4096
      modifies `wasmInstructions, `e
      ensures Valid() && e == Add(old(e), Code(F.ResultsCode(results, 0) + [AddImm(31, 31, stackSize)]))
    {
      hide Add, Code, InstrText, CodeText, PopCode, F.ResultsCode;
      var answer := "";
      ghost var done: seq<Instr> := [];
      CodeTextNone();
      for i := 0 to |results|
        modifies {}
        invariant answer == CodeText(done) && done + F.ResultsCode(results, i) == F.ResultsCode(results, 0)
      {
        var pop := Pop(results[i], false, i);
        CodeTextAppend(done, PopCode(results[i], i));
        ResultsMore(results, i, done);
        answer := answer + pop;
        done := done + PopCode(results[i], i);
      }
      ResultsEnd(results);
      assert done + [] == done;
      var restore := EncodeAddSubImm(true, false, 31, 31, stackSize, 0, false);
      OneMore(done, AddImm(31, 31, stackSize));
      ConstructFullInstr(answer + restore.value, done + [AddImm(31, 31, stackSize)]);
    }

    method MainEntryFinalize()
      requires Valid() && |results| <= 32 && stackSize < 4096
      modifies `wasmInstructions, `e
      ensures Valid() && e == Add(old(e),
          Code(F.ResultsCode(results, 0) + [AddImm(31, 31, stackSize), BranchReg(Ret, 30)]))
    {
      hide Add, Code, InstrText, CodeText;
      RestoreSP();
      var ret := EncodeReturn();
      Append(ret, BranchReg(Ret, 30));
      AddCode(old(e), F.ResultsCode(results, 0) + [AddImm(31, 31, stackSize)], [BranchReg(Ret, 30)]);
      assert F.ResultsCode(results, 0) + [AddImm(31, 31, stackSize)] + [BranchReg(Ret, 30)]
          == F.ResultsCode(results, 0) + [AddImm(31, 31, stackSize), BranchReg(Ret, 30)];
    }

    /**
     Calls setjmp: the link registers are saved before and restored after, and a second return goes to raiseException.
     */
    method WrapperSetjmp()
      requires Valid()
      modifies `wasmInstructions, `fakes, `e
      ensures Valid() && e == Add(Add(old(e), Code(F.SaveLinkCode())), Linking.GuardItems())
    {
      hide Add, Code, InstrText, CodeText;
      var save := EncodeLdpStp(true, false, 29, 30, 31, -0x20, PreIndex);
      var buffer := EncodeMovRegister(true, 0, BUFFER);
      Append(save, Pair(true, false, 29, 30, 31, -4, PreIndex));
      Append(buffer, MovReg(true, 0, BUFFER));
      FakeInsertBranch(SetJmp, BL);
      var test := EncodeCompareImm(true, 0, 0);
      Append(test, CmpImm(true, 0, 0));
      FakeInsertBranch(RaiseException, BCond(NE));
      var restore := EncodeLdpStp(true, true, 29, 30, 31, 0x20, PostIndex);
      Append(restore, Pair(true, true, 29, 30, 31, 4, PostIndex));
      WrapperAdds(old(e));
    }

    // The body.

    /** What one instruction emits, whatever it is. */
    method EmitInstruction(f: Flat) returns (r: Text)
      requires Valid() && Laid() && (f.Else? || f.Stop? ==> |control| > 0)
      modifies `wasmInstructions, `fakes, `labels, `control, `ifLabel, `e
      ensures Valid() && (r.Ok? <==> Step(old(e), f, Slots(Shape())).Some?)
      ensures r == if Bytecode.VarBelow(f, |params| + |locals|) then Ok(()) else Err(BadIndex)
      ensures r.Ok? ==> Step(old(e), f, Slots(Shape())) == Some(e)
    {
      hide Slots, InstrText, ItemsText, Fakes, InWords, Add, Mark, Code, SlotKnown, Laid, Step;
      StepSlots(e, f, Slots(Shape()));
      match f {
        case Plain(op) =>
          match op {
            case Nop =>
              var nop := EncodeNop();
              Append(nop, Isa.Nop);
            case Return =>
              AddNone(e);
            case Get(i) => r := CommonLocalOp(i, op); return;
            case Put(i) => r := CommonLocalOp(i, op); return;
            case Tee(i) => r := CommonLocalOp(i, op); return;
            case Const(wide, byte) => EmitConst(wide, byte);
            case Compare(wide, cmp) => EmitCompareOp(wide, cmp);
            case Binary(wide, arith) => EmitArithOp(wide, arith);
          }
        case If(block) => EmitIfOp(block);
        case Else => EmitElseOp();
        case Stop => EmitEndOp();
      }
      return Ok(());
    }

    /**
     The pass over the bytes from `start` on. It takes every byte once; it fails just when an instruction is refused or
     a variable is not there.
     */
    method JitWasmCode(start: nat) returns (r: Text)
      requires Valid() && Laid() && start <= |codeVec| && Bytecode.Sensible(codeVec, start, |control| + 1)
      modifies `wasmInstructions, `fakes, `labels, `control, `ifLabel, `e
      ensures Valid()
      ensures r.Ok? <==>
        && Bytecode.Instructions(codeVec, start).Some?
        && Steps(Based(old(e)), Bytecode.Instructions(codeVec, start).value, Slots(Shape())).Some?
      ensures r.Ok? ==> Steps(Based(old(e)), Bytecode.Instructions(codeVec, start).value, Slots(Shape())) == Some(e)
      ensures Bytecode.Refusal(codeVec, start, |params| + |locals|) == if r.Err? then Some(r.error) else None
    {
      hide Slots, ItemsText, Fakes, InWords, Steps, Step, Laid, Bytecode.Read, NamesOf, SlotKnown, Bytecode.VarBelow;
      NamesPush(control, Control(Last, results));
      control := control + [Control(Last, results)];
      e := Based(e);
      ghost var e0, slots := e, Slots(Shape());
      var i := start;
      while i < |codeVec|
        invariant i <= |codeVec| && Valid() && Laid() && Bytecode.Sensible(codeVec, i, |control|)
        invariant Bytecode.Instructions(codeVec, start).Some? <==> Bytecode.Instructions(codeVec, i).Some?
        invariant Bytecode.Instructions(codeVec, i).Some? ==>
          Steps(e0, Bytecode.Instructions(codeVec, start).value, slots) ==
              Steps(e, Bytecode.Instructions(codeVec, i).value, slots)
        invariant Bytecode.Refusal(codeVec, start, |params| + |locals|) ==
            Bytecode.Refusal(codeVec, i, |params| + |locals|)
        decreases |codeVec| - i
      {
        var reading := Bytecode.Read(codeVec, i);
        Bytecode.ReadLength(codeVec, i);
        if reading.Throws? {
          return Err(Unsupported);
        }
        ghost var before := e;
        Bytecode.NextInstruction(codeVec, i, before, slots, |control|);
        r := EmitInstruction(reading.flat);
        if r.Err? {
          return;
        }
        i := i + reading.length;
      }
      StepsNone(e, slots);
      return Ok(());
    }

    /**
     Replaces every placeholder by its branch, in an order that is not fixed. It fails just when some distance is
     refused by the branch's encoder; otherwise the text is that of the items with every branch resolved, whatever the
     order, and nothing else in it changes.
     */
    method FixUpFakeBranch() returns (r: Text)
      requires Valid()
      modifies `wasmInstructions
      ensures (r.Ok? <==> AllAccepted(e.items, e.labels)) && (r.Err? ==> r == Err(OutOfRange))
      ensures r.Ok? ==> wasmInstructions == CodeText(ResolveAll(e.items, 0, e.labels))
    {
      hide ItemsText, CodeText, AllAccepted;
      var text :- PatchAll(wasmInstructions, fakes, labels, e.items, e.labels);
      wasmInstructions := text;
      return Ok(());
    }

    // The whole function.

    /** The fixed code: setjmp, preparelongjmp, longjmp and raiseException. */
    method EmitStub()
      requires Valid() && e == Emit([], map[], [], ifLabel)
      modifies `wasmInstructions, `fakes, `labels, `e
      ensures Valid() && e == Linking.StubEmit(ifLabel)
    {
      hide Add, Mark, Code, InstrText, CodeText, ItemsText, Fakes, InWords, Stub.SetJmpCode, Stub.LongJmpCode;
      FakeInsertBranch(Label.Entry, B);
      InsertLabel(SetJmp);
      var setJmp := GetSetJmpInstr();
      ConstructFullInstr(setJmp, Stub.SetJmpCode());
      InsertLabel(PrepareLongJmp);
      ghost var e1 := e;
      var link := EncodeMovRegister(true, 14, 30);
      var sp := EncodeMovSP(true, 15, 31);
      var buffer := EncodeMovRegister(true, 0, BUFFER);
      Append(link, MovReg(true, 14, 30));
      Append(sp, MovSp(15, 31));
      Append(buffer, MovReg(true, 0, BUFFER));
      FakeInsertBranch(LongJmp, B);
      PrepareAdds(e1);
      InsertLabel(LongJmp);
      var longJmp := GetLongJmpInstr();
      ConstructFullInstr(longJmp, Stub.LongJmpCode());
      InsertLabel(RaiseException);
      ghost var e2 := e;
      var linkBack := EncodeMovRegister(true, 30, 14);
      var spBack := EncodeMovSP(true, 31, 15);
      Append(linkBack, MovReg(true, 30, 14));
      Append(spBack, MovSp(31, 15));
      EmitReturnCode(1);
      FakeInsertBranch(Label.Finalize, B);
      RaiseAdds(e2);
    }

    /** A return code to the first word of the buffer. */
    method EmitReturnCode(code: nat)
      requires Valid() && code < 0x1_0000
      modifies `wasmInstructions, `e
      ensures Valid() && e == Add(old(e), Code(Stub.ReturnCode(code)))
    {
      hide Add, Code, InstrText;
      var value := EncodeMovz(11, code, true, 0);
      var store := EncodeLoadStoreImm(true, false, 11, BUFFER, 0);
      Append(value, Movz(true, 11, code));
      Append(store, Access(true, false, 11, BUFFER, 0));
      AddCode(old(e), [Movz(true, 11, code)], [Access(true, false, 11, BUFFER, 0)]);
      assert [Movz(true, 11, code)] + [Access(true, false, 11, BUFFER, 0)] == Stub.ReturnCode(code);
    }

    /** The shape of the function with the locals that compiling will declare. */
    ghost function Grown(): Fn
      requires 2 * declares <= |codeVec|
      reads `params, `locals, `results, `codeVec, `declares
    {
      Fn(Typing.Types(params), locals + Declared(codeVec, declares), results, W.End)
    }

    /** The frame, the first stores and the call of setjmp. */
    method EmitEntry() returns (r: Text)
      requires Valid() && e == Linking.StubEmit(ifLabel) && Frame(Shape()) < 0x1_0000
      modifies `wasmInstructions, `fakes, `labels, `e, `paramEnd, `localEnd, `stackSize, `vecToStack, `stackToVec,
          `regTypes
      ensures Valid() && (r.Ok? <==> Frame(Shape()) < 4096 && |params| <= 32)
      ensures r.Err? ==> r == Err(OutOfRange)
      ensures r.Ok? ==>
        && Based(e) == Linking.Head(Shape(), ifLabel) && e.control == [] && stackSize == Frame(Shape()) && Laid()
        && Known(Slots(Shape()), |params|, |params| + |locals|, vecToStack, regTypes, stackToVec, old(stackToVec))
    {
      hide Add, Mark, Code, ItemsText, Fakes, InWords, Slots, Known, Linking.StubEmit, Linking.Head, F.StoresCode,
           Frame, Based;
      StubControl(ifLabel);
      InsertLabel(Label.Entry);
      ghost var e1 := e;
      FrameIs(Shape());
      var _ :- MainEntryInitialize();
      WrapperSetjmp();
      EntryAdds(e1, Shape());
      KnownLaid(Shape(), |params|, vecToStack, regTypes, stackToVec, old(stackToVec));
      BasedHead(Shape(), ifLabel, e);
      return Ok(());
    }

    /** The exit: return code 0, and finalize. */
    method EmitExit()
      requires Valid() && |results| <= 32 && stackSize < 4096
      modifies `wasmInstructions, `labels, `e
      ensures Valid()
      ensures e == Add(Mark(Add(old(e), Code(Stub.ReturnCode(0))), Label.Finalize),
                       Code(F.ResultsCode(results, 0) + [AddImm(31, 31, stackSize), BranchReg(Ret, 30)]))
    {
      hide Add, Mark, Code, ItemsText, Fakes, InWords, F.ResultsCode, Stub.ReturnCode;
      EmitReturnCode(0);
      InsertLabel(Label.Finalize);
      MainEntryFinalize();
    }

    /** The body and the exit, behind the entry code for label count `n`. */
    method EmitBody(ghost n: nat) returns (r: Text)
      requires Valid() && Laid() && control == [] && Based(e) == Linking.Head(Shape(), n)
      requires 2 * declares <= |codeVec| && Bytecode.Sensible(codeVec, 2 * declares, 1)
      requires |results| <= 32 && stackSize == Frame(Shape()) < 4096
      modifies `wasmInstructions, `fakes, `labels, `control, `ifLabel, `e
      ensures Valid()
      ensures
        var fs := Bytecode.Instructions(codeVec, 2 * declares);
        && (r.Ok? <==> fs.Some? && Linking.Whole(Shape(), n, fs.value).Some?)
        && (r.Ok? ==> Linking.Whole(Shape(), n, fs.value) == Some(e))
      ensures Bytecode.Refusal(codeVec, 2 * declares, |params| + |locals|) == if r.Err? then Some(r.error) else None
    {
      hide Add, Mark, Code, ItemsText, Fakes, InWords, Slots, Laid, SlotKnown, Bytecode.Refusal, Linking.Head,
           Linking.Whole, Steps, Bytecode.Sensible, Bytecode.Instructions, Stub.ReturnCode, F.ResultsCode, Frame,
           NamesOf;
      r := JitWasmCode(2 * declares);
      WholeSome(Shape(), n, Bytecode.Instructions(codeVec, 2 * declares));
      if r.Ok? {
        WholeIs(Shape(), n, Bytecode.Instructions(codeVec, 2 * declares).value, e);
        EmitExit();
      }
    }

    /** The entry code, the body, the exit. */
    method EmitFunction() returns (r: Text)
      requires Valid() && e == Linking.StubEmit(ifLabel) && 2 * declares <= |codeVec|
          && Bytecode.Sensible(codeVec, 2 * declares, 1)
      requires |results| <= 32 && Frame(Shape()) < 0x1_0000
      modifies `wasmInstructions, `fakes, `labels, `control, `ifLabel, `e, `paramEnd, `localEnd, `stackSize,
          `vecToStack, `stackToVec, `regTypes
      ensures Valid()
      ensures r.Ok? <==>
        && Frame(Shape()) < 4096 && |params| <= 32
        && Bytecode.Instructions(codeVec, 2 * declares).Some?
        && Linking.Whole(Shape(), old(ifLabel), Bytecode.Instructions(codeVec, 2 * declares).value).Some?
      ensures r.Ok? ==>
        && Linking.Whole(Shape(), old(ifLabel), Bytecode.Instructions(codeVec, 2 * declares).value) == Some(e)
        && Known(Slots(Shape()), |params|, |params| + |locals|, vecToStack, regTypes, stackToVec, old(stackToVec))
        && Bytecode.Refusal(codeVec, 2 * declares, |params| + |locals|) == None
      ensures r.Err? ==> r == Err(Thrown(Shape(), codeVec, 2 * declares))
    {
      hide ItemsText, Fakes, InWords, Slots, Known, Laid, Bytecode.Refusal, Thrown, Linking.StubEmit, Linking.Head,
           Linking.Whole, Bytecode.Sensible, Bytecode.Instructions, Frame, NamesOf, Based;
      ThrownIs(Shape(), codeVec, 2 * declares);
      r := EmitEntry();
      if r.Ok? {
        NoNames(control);
        r := EmitBody(old(ifLabel));
      }
    }

    /**
     Compiles the body. It fails just when the frame or a parameter's register does not fit, an instruction is refused,
     a variable is not there, or a branch is too far; otherwise the text is that of the whole function, every branch
     resolved.
     */
    method ProcessCodeVec() returns (r: Text)
      requires Valid() && e == Emit([], map[], [], ifLabel) && 2 * declares <= |codeVec|
          && Bytecode.Sensible(codeVec, 2 * declares, 1)
      requires |results| <= 32 && Frame(Grown()) < 0x1_0000
      modifies `wasmInstructions, `fakes, `labels, `control, `ifLabel, `e, `locals, `paramEnd, `localEnd, `stackSize,
          `vecToStack,
        `stackToVec, `regTypes
      ensures Shape() == old(Grown())
      ensures r.Ok? <==> Compiles(Shape(), old(ifLabel), Bytecode.Instructions(codeVec, 2 * declares))
      ensures r.Err? ==> r == Err(Thrown(Shape(), codeVec, 2 * declares))
      ensures r.Ok? ==>
        && Linking.Whole(Shape(), old(ifLabel), Bytecode.Instructions(codeVec, 2 * declares).value) == Some(e)
        && wasmInstructions == CodeText(ResolveAll(e.items, 0, e.labels)) && NamesOf(control) == e.control
            && ifLabel == e.next
        && Known(Slots(Shape()), |params|, |params| + |locals|, vecToStack, regTypes, stackToVec, old(stackToVec))
    {
      hide ItemsText, CodeText, Fakes, InWords, Slots, Known, Linking.StubEmit, Linking.Whole, Bytecode.Sensible,
           Bytecode.Instructions, Bytecode.Refusal, Thrown, AllAccepted, ResolveAll, Frame, Declared;
      var _ := LocalVarInitialize();
      EmitStub();
      r := EmitFunction();
      if r.Ok? {
        ThrownIs(Shape(), codeVec, 2 * declares);
        r := FixUpFakeBranch();
      }
    }

    /** Moves the buffer, the operand stack and the parameters to their registers, ahead of the function. */
    method PrepareParams() returns (r: Text)
      modifies `preInstructions
      ensures (r.Ok? <==> |params| <= 32) && (r.Err? ==> r == Err(OutOfRange))
      ensures r.Ok? ==> preInstructions == old(preInstructions) + CodeText(Image.PrefixCode(params))
    {
      hide CodeText, InstrText;
      var buffer := EncodeMovRegister(true, BUFFER, 0);
      var stack := EncodeMovRegister(true, STACK, 1);
      var depth := EncodeMovz(DEPTH, 0, true);
      TwoText(MovReg(true, BUFFER, 0), MovReg(true, STACK, 1));
      OneMore([MovReg(true, BUFFER, 0), MovReg(true, STACK, 1)], Movz(true, DEPTH, 0));
      preInstructions := preInstructions + buffer.value + stack.value + depth.value;
      ghost var done := Image.SetUpCode();
      for i := 0 to |params|
        invariant i <= 32 && preInstructions == old(preInstructions) + CodeText(done)
        invariant done + Image.ArgsCode(params, i) == Image.PrefixCode(params)
      {
        var load :- MovInt(params[i].wide, i, params[i].bits);
        CodeTextAppend(done, MovCode(params[i].wide, i, params[i].bits));
        ArgsMore(params, i, done);
        preInstructions := preInstructions + load;
        done := done + MovCode(params[i].wide, i, params[i].bits);
      }
      assert done + [] == done;
      return Ok(());
    }

    method ResetAfterExecution()
      modifies `preInstructions, `wasmInstructions, `fakes, `labels, `e
      ensures preInstructions == "" && wasmInstructions == "" && fakes == multiset{} && labels == map[]
      ensures e == Emit([], map[], NamesOf(control), ifLabel) && Valid()
    {
      preInstructions, wasmInstructions, fakes, labels := "", "", multiset{}, map[];
      e := Emit([], map[], NamesOf(control), ifLabel);
    }

    /**
     Loads the text as bytes, runs them, and starts afresh whatever happened. `run` stands for the machine: from the
     loaded bytes it gives the first half-word of the buffer and x0 on return.
     */
    method ExecuteWasmInstr(run: seq<HexText.Byte> -> (int, int)) returns (r: Result<int>)
      requires IsHex(preInstructions + wasmInstructions)
      modifies `preInstructions, `wasmInstructions, `fakes, `labels, `e
      ensures
        var (code, answer) := run(Bytes(old(preInstructions + wasmInstructions)));
        r == if code != 0 then Err(Trapped) else Ok(answer)
      ensures Valid() && e == Emit([], map[], NamesOf(control), ifLabel) && preInstructions == ""
    {
      var image := ReadBytes(preInstructions + wasmInstructions);
      var (code, answer) := run(image[..]);
      ResetAfterExecution();
      if code != 0 {
        return Err(Trapped);
      }
      return Ok(answer);
    }

    /**
     One round: the parameters are prepared, the body is compiled and executed. When it compiles, what is run is the
     text of the words that load the parameters and of the function with every branch resolved; the object is left
     without text, placeholders and labels, with the locals and the label count grown, and with what the body has left
     on the control stack, which is nothing for the bytes of a structured body (`Rounds.CompiledImage`).
     */
    method Round(run: seq<HexText.Byte> -> (int, int)) returns (r: Result<int>)
      requires Valid() && e == Emit([], map[], [], ifLabel) && preInstructions == ""
      requires 2 * declares <= |codeVec| && Bytecode.Sensible(codeVec, 2 * declares, 1)
      requires |results| <= 32 && Frame(Grown()) < 0x1_0000
      modifies this
      ensures params == old(params) && results == old(results) && codeVec == old(codeVec) && declares == old(declares)
      ensures |params| <= 32 ==> Shape() == old(Grown())
      ensures
        var fs := Bytecode.Instructions(codeVec, 2 * declares);
        if Compiles(Shape(), old(ifLabel), fs) then
          var whole := Linking.Whole(Shape(), old(ifLabel), fs.value).value;
          var (code, answer) := run(Bytes'(CodeText(Image.PrefixCode(params))
              + CodeText(ResolveAll(whole.items, 0, whole.labels))));
          && r == (if code != 0 then Err(Trapped) else Ok(answer))
          && Valid() && e == Emit([], map[], whole.control, ifLabel) && ifLabel == whole.next && preInstructions == ""
        else r == Err(Thrown(old(Grown()), codeVec, 2 * declares)) && r != Err(Trapped)
    {
      hide ItemsText, CodeText, Fakes, InWords, Slots, Known, Linking.Whole, Bytecode.Sensible, Bytecode.Instructions,
           Thrown, Bytecode.Refusal,
           AllAccepted, ResolveAll, Frame, Image.PrefixCode, NamesOf, IsHex, Bytes;
      NotTrapped(Grown(), codeVec, 2 * declares);
      ThrownIs(Grown(), codeVec, 2 * declares);
      var _ :- PrepareParams();
      assert preInstructions == CodeText(Image.PrefixCode(params));
      var _ :- ProcessCodeVec();
      AllHex(Image.PrefixCode(params));
      AllHex(ResolveAll(e.items, 0, e.labels));
      HexAppend(CodeText(Image.PrefixCode(params)), CodeText(ResolveAll(e.items, 0, e.labels)));
      r := ExecuteWasmInstr(run);
    }
  }

  lemma AllHex(code: seq<Instr>)
    ensures IsHex(CodeText(code))
  {
    TextHex(EncodeAll(code));
  }

  lemma HexAppend(s: string, t: string)
    requires IsHex(s) && IsHex(t)
    ensures IsHex(s + t)
  {
    hide DigitValue;
  }

  /** The bytes of a text, if it is one of hexadecimal digits. */
  function Bytes'(s: string): seq<HexText.Byte> { if IsHex(s) then Bytes(s) else [] }

  /** The places of the labels in the text, in characters and in words. */
  ghost predicate InWords(labels: map<Label, nat>, words: map<Label, nat>) {
    (forall l :: l in labels <==> l in words) && forall l :: l in labels ==> labels[l] == 8 * words[l]
  }

  lemma TargetInWords(labels: map<Label, nat>, words: map<Label, nat>, name: Label)
    requires InWords(labels, words)
    ensures (if name in labels then labels[name] else 0) == 8 * Target(words, name)
  {}

  method PatchAll(text: string, fakes: multiset<Fake>, labels: map<Label, nat>, ghost items: seq<Item>,
      ghost words: map<Label, nat>)
    returns (r: Result<string>)
    requires text == ItemsText(items) && fakes == Fakes(items) && InWords(labels, words)
    ensures (r.Ok? <==> AllAccepted(items, words)) && (r.Err? ==> r == Err(OutOfRange))
    ensures r.Ok? ==> r.value == CodeText(ResolveAll(items, 0, words))
  {
    hide ItemsText, CodeText, Patched, AcceptedSoFar, AllAccepted, Accepted, Target, InstrText, BranchTo, InWords,
         Fakes, ResolveAll;
    var todo, s := fakes, text;
    PatchedStart(items, words);
    NoneFixed(items, words);
    while todo != multiset{}
      invariant todo <= fakes && s == ItemsText(Patched(items, words, todo)) && AcceptedSoFar(items, words, todo)
      decreases |todo|
    {
      var x :| x in todo;
      PatchText(items, words, todo, x, s);
      TargetInWords(labels, words, x.name);
      var p := EncodeBranchTo(x, if x.name in labels then labels[x.name] else 0, Target(words, x.name));
      if p.Err? {
        Refused(items, words, x);
        return Err(p.error);
      }
      s := s[..x.at] + p.value + s[x.at + 8..];
      AcceptedMore(items, words, todo, x);
      todo := todo - multiset{x};
    }
    PatchedEnd(items, words);
    ItemsTextCode(ResolveAll(items, 0, words));
    AllFixed(items, words);
    return Ok(s);
  }

  /** The branch for a placeholder, its distance in words. */
  method EncodeBranchTo(x: Fake, target: nat, ghost word: nat) returns (r: Result<string>)
    requires target == 8 * word && x.at % 8 == 0
    ensures r == if Accepted(x.kind, word - x.at / 8) then Ok(InstrText(BranchTo(x.kind, word - x.at / 8)))
        else Err(OutOfRange)
  {
    hide InstrText;
    var distance := (target - x.at) / 8;
    Distance(word, x.at / 8, x.at);
    match x.kind {
      case B => r := EncodeBranch(distance, false);
      case BL => r := EncodeBranch(distance, true);
      case BCond(cond) => r := EncodeBranchCondition(distance, cond);
    }
  }

  lemma Distance(target: nat, k: nat, location: nat)
    requires location == 8 * k
    ensures (8 * target - location) / 8 == target - k
  {}
}
