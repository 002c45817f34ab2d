/** Resolving the branches of what was emitted gives the structured code: patching is exact. */
module Linking {
  import opened Numbers
  import opened Isa
  import opened Codegen
  import opened Layout
  import opened Body
  import opened Stub
  import opened Function
  import opened Emission
  import W = Wasm

  // Resolution gives the structured code.

  lemma ResolveTwo(a: seq<Item>, b: seq<Item>, pos: int, labels: map<Label, nat>, x: seq<Instr>, y: seq<Instr>)
    requires ResolveAll(a, pos, labels) == x && ResolveAll(b, pos + |a|, labels) == y
    ensures ResolveAll(a + b, pos, labels) == x + y
  {
    ResolveAppend(a, b, pos, labels);
  }

  /** Words and then a branch. */
  lemma ResolveBranch(c: seq<Instr>, kind: Kind, name: Label, pos: int, labels: map<Label, nat>)
    ensures ResolveAll(Code(c) + [To(kind, name)], pos, labels) ==
        c + [BranchTo(kind, Target(labels, name) - (pos + |c|))]
  {
    hide ResolveAll;
    ResolveCode(c, pos, labels);
    ResolveOne(kind, name, pos + |c|, labels);
    ResolveTwo(Code(c), [To(kind, name)], pos, labels, c, [BranchTo(kind, Target(labels, name) - (pos + |c|))]);
  }

  lemma ResolveTest(l: Label, pos: int, skip: int, labels: map<Label, nat>)
    requires Target(labels, l) == pos + TEST_LENGTH + skip
    ensures ResolveAll(TestItems(l), pos, labels) == TestCode(skip)
  {
    hide ResolveAll;
    var c := TeeCode(false, 11) + [CmpImm(false, 11, 0)];
    ResolveBranch(c, BCond(EQ), l, pos, labels);
    assert c + [BranchCond(EQ, skip + 1)] == TestCode(skip);
  }

  /** The words of a division up to its label. */
  function DivHead(wide: bool, pos: int, normal: int): seq<Instr> {
    var m := MovLength(wide);
    (OperandsCode(wide) + [CmpImm(wide, 11, 0)]) + [BranchCond(EQ, PREPARE - (pos + 5))]
    + ((MovCode(wide, 5, -1) + [CmpReg(wide, 11, 5)]) + [BranchCond(NE, normal - (pos + 7 + m))])
    + ((MovCode(wide, 5, -HalfSpan(wide)) + [CmpReg(wide, 12, 5)]) + [BranchCond(NE, normal - (pos + 9 + 2 * m))])
    + [Branch(false, PREPARE - (pos + 10 + 2 * m))]
  }

  lemma DivHeadTail(wide: bool, arith: W.Arith, pos: int, normal: int)
    ensures DivHead(wide, pos, normal) + ([ArithInstr(wide, arith)] + PushCode(wide, 11)) ==
        DivCode(wide, arith, pos, normal)
  {
    hide MovCode, PushCode, OperandsCode, ArithInstr;
  }

  lemma ResolveDivHead(wide: bool, pos: int, labels: map<Label, nat>)
    requires Target(labels, PrepareLongJmp) == PREPARE
    ensures ResolveAll(DivItems(wide), pos, labels) == DivHead(wide, pos, Target(labels, NormalDiv))
  {
    hide ResolveAll, Code, Target, OperandsCode, CmpImm, CmpReg, MovCode;
    var m, normal := MovLength(wide), Target(labels, NormalDiv);
    DivWords(wide);
    var a, b, c := OperandsCode(wide) + [CmpImm(wide, 11, 0)], MovCode(wide, 5, -1) + [CmpReg(wide, 11, 5)],
                   MovCode(wide, 5, -HalfSpan(wide)) + [CmpReg(wide, 12, 5)];
    ResolveBranch(a, BCond(EQ), PrepareLongJmp, pos, labels);
    ResolveBranch(b, BCond(NE), NormalDiv, pos + 6, labels);
    ResolveBranch(c, BCond(NE), NormalDiv, pos + 8 + m, labels);
    ResolveOne(B, PrepareLongJmp, pos + 10 + 2 * m, labels);
    var a', b', c' := Code(a) + [To(BCond(EQ), PrepareLongJmp)], Code(b) + [To(BCond(NE), NormalDiv)], Code(c)
        + [To(BCond(NE), NormalDiv)];
    var x, y := a + [BranchCond(EQ, PREPARE - (pos + 5))], b + [BranchCond(NE, normal - (pos + 7 + m))];
    var z := c + [BranchCond(NE, normal - (pos + 9 + 2 * m))];
    ResolveTwo(a', b', pos, labels, x, y);
    ResolveTwo(a' + b', c', pos, labels, x + y, z);
    ResolveTwo(a' + b' + c', [To(B, PrepareLongJmp)], pos, labels, x + y
        + z, [Branch(false, PREPARE - (pos + 10 + 2 * m))]);
  }

  lemma DivWords(wide: bool)
    ensures |OperandsCode(wide)| == 4 && |MovCode(wide, 5, -1)| == MovLength(wide)
        && |MovCode(wide, 5, -HalfSpan(wide))| == MovLength(wide)
  {}

  lemma ResolveOp(op: W.Op, pos: int, slots: seq<Slot>, labels: map<Label, nat>)
    requires Target(labels, PrepareLongJmp) == PREPARE
    ensures ResolveAll(OpItems(op, slots), pos, labels) == OpCode(op, pos, slots, Target(labels, NormalDiv))
  {
    if IsDiv(op) {
      hide ResolveAll, DivItems, DivHead, DivCode, Target;
      var tail := [ArithInstr(op.wide, op.arith)] + PushCode(op.wide, 11);
      ResolveDivHead(op.wide, pos, labels);
      ResolveCode(tail, pos + |DivItems(op.wide)|, labels);
      ResolveTwo(DivItems(op.wide), QuotientItems(op.wide, op.arith), pos, labels,
          DivHead(op.wide, pos, Target(labels, NormalDiv)), tail);
      DivHeadTail(op.wide, op.arith, pos, Target(labels, NormalDiv));
    } else {
      hide ResolveAll, OpCode, Target;
      Unbranched(op, pos, slots, Target(labels, NormalDiv));
      ResolveCode(OpCode(op, 0, slots, 0), pos, labels);
    }
  }

  lemma ResolveThree(a: seq<Item>, b: seq<Item>, c: seq<Item>, i: int, j: int, k: int, labels: map<Label, nat>,
                     x: seq<Instr>, y: seq<Instr>, z: seq<Instr>)
    requires ResolveAll(a, i, labels) == x && ResolveAll(b, j, labels) == y && ResolveAll(c, k, labels) == z
    requires j == i + |a| && k == j + |b|
    ensures ResolveAll(Three(a, b, c), i, labels) == Three(x, y, z)
  {
    hide ResolveAll;
    ResolveTwo(a, b, i, labels, x, y);
    ResolveTwo(a + b, c, i, labels, x + y, z);
  }

  lemma ResolveFive(a: seq<Item>, b: seq<Item>, c: seq<Item>, d: seq<Item>, e: seq<Item>, i: int, j: int, k: int,
      l: int, m: int,
                    labels: map<Label, nat>, v: seq<Instr>, w: seq<Instr>, x: seq<Instr>, y: seq<Instr>, z: seq<Instr>)
    requires ResolveAll(a, i, labels) == v && ResolveAll(b, j, labels) == w && ResolveAll(c, k, labels) == x
    requires ResolveAll(d, l, labels) == y && ResolveAll(e, m, labels) == z
    requires j == i + |a| && k == j + |b| && l == k + |c| && m == l + |d|
    ensures ResolveAll(Five(a, b, c, d, e), i, labels) == Five(v, w, x, y, z)
  {
    hide ResolveAll;
    ResolveThree(a, b, c, i, j, k, labels, v, w, x);
    ResolveTwo(a + b + c, d, i, labels, v + w + x, y);
    ResolveTwo(a + b + c + d, e, i, labels, v + w + x + y, z);
  }

  /** Patching is exact: with the labels where they belong, the items become the structured code, word for word. */
  lemma {:induction false} ResolveBody(c: W.Code, pos: nat, n: nat, slots: seq<Slot>, labels: map<Label, nat>)
    requires Marked(c, pos, n, slots, labels) && Target(labels, PrepareLongJmp) == PREPARE
    ensures ResolveAll(Items(c, n, slots), pos, labels) == Compile(c, pos, slots, Target(labels, NormalDiv))
    decreases c
  {
    hide ResolveAll, OpItems, OpCode, OpLength, TestItems, TestCode, Length, Names;
    var normal := Target(labels, NormalDiv);
    match c
    case End => ResolveNone(pos, labels);
    case Do(op, rest) =>
      OpItemsLength(op, slots);
      ResolveOp(op, pos, slots, labels);
      ResolveBody(rest, pos + OpLength(op, slots), n, slots, labels);
      ResolveTwo(OpItems(op, slots), Items(rest, n, slots), pos, labels, OpCode(op, pos, slots, normal),
                 Compile(rest, pos + OpLength(op, slots), slots, normal));
    case IfThen(block, thn, rest) => ResolveIfThen(block, thn, rest, pos, n, slots, labels);
    case IfElse(block, thn, els, rest) => ResolveIfElse(block, thn, els, rest, pos, n, slots, labels);
  }

  lemma ResolveNone(pos: int, labels: map<Label, nat>)
    ensures ResolveAll([], pos, labels) == []
  {}

  lemma {:induction false} ResolveIfThen(block: W.Block, thn: W.Code, rest: W.Code, pos: nat, n: nat, slots: seq<Slot>,
      labels: map<Label, nat>)
    requires Marked(W.IfThen(block, thn, rest), pos, n, slots, labels) && Target(labels, PrepareLongJmp) == PREPARE
    ensures ResolveAll(Items(W.IfThen(block, thn, rest), n, slots), pos, labels) ==
            Compile(W.IfThen(block, thn, rest), pos, slots, Target(labels, NormalDiv))
    decreases W.IfThen(block, thn, rest), 0
  {
    hide ResolveAll, OpItems, OpCode, OpLength, TestItems, TestCode, Length, Names, Three;
    var normal, first, t := Target(labels, NormalDiv), pos + TEST_LENGTH, Length(thn, slots);
    TestItemsLength(Arm(n));
    ItemsLength(thn, n + 1, slots);
    ResolveTest(Arm(n), pos, t, labels);
    ResolveBody(thn, first, n + 1, slots, labels);
    ResolveBody(rest, first + t, n + 1 + Names(thn), slots, labels);
    ResolveThree(TestItems(Arm(n)), Items(thn, n + 1, slots), Items(rest, n + 1 + Names(thn), slots), pos, first,
        first + t, labels,
                 TestCode(t), Compile(thn, first, slots, normal), Compile(rest, first + t, slots, normal));
  }

  lemma {:induction false} ResolveIfElse(block: W.Block, thn: W.Code, els: W.Code, rest: W.Code, pos: nat, n: nat,
      slots: seq<Slot>,
                                         labels: map<Label, nat>)
    requires Marked(W.IfElse(block, thn, els, rest), pos, n, slots, labels) && Target(labels, PrepareLongJmp) == PREPARE
    ensures ResolveAll(Items(W.IfElse(block, thn, els, rest), n, slots), pos, labels) ==
            Compile(W.IfElse(block, thn, els, rest), pos, slots, Target(labels, NormalDiv))
    decreases W.IfElse(block, thn, els, rest), 0
  {
    hide ResolveAll, OpItems, OpCode, OpLength, TestItems, TestCode, Length, Names, Five, Compile, Items, Marked;
    IfElseMarked(block, thn, els, rest, pos, n, slots, labels);
    var normal, first, t, e := Target(labels, NormalDiv), pos + TEST_LENGTH, Length(thn, slots), Length(els, slots);
    var mid, n' := first + (t + 1), n + 1 + Names(thn);
    ItemsShape(block, thn, els, rest, n, n', n' + 1, n' + 1 + Names(els), slots);
    CodeShape(block, thn, els, rest, pos, mid, mid + e, t, e, slots, normal);
    TestItemsLength(Arm(n));
    ItemsLength(thn, n + 1, slots);
    ItemsLength(els, n' + 1, slots);
    ResolveTest(Arm(n), pos, t + 1, labels);
    ResolveBody(thn, first, n + 1, slots, labels);
    ResolveOne(B, Out(n'), mid - 1, labels);
    ResolveBody(els, mid, n' + 1, slots, labels);
    ResolveBody(rest, mid + e, n' + 1 + Names(els), slots, labels);
    ResolveFive(TestItems(Arm(n)), Items(thn, n + 1, slots), [To(B, Out(n'))], Items(els, n' + 1, slots),
        Items(rest, n' + 1 + Names(els), slots),
                pos, first, mid - 1, mid, mid + e, labels,
                TestCode(t + 1), Compile(thn, first, slots, normal), [Branch(false, e + 1)],
                    Compile(els, mid, slots, normal),
                Compile(rest, mid + e, slots, normal));
  }

  // What `ResolveIfElse` needs of the definitions.

  lemma IfElseMarked(block: W.Block, thn: W.Code, els: W.Code, rest: W.Code, pos: nat, n: nat, slots: seq<Slot>,
      labels: map<Label, nat>)
    requires Marked(W.IfElse(block, thn, els, rest), pos, n, slots, labels)
    ensures
      var mid, n' := pos + TEST_LENGTH + (Length(thn, slots) + 1), n + 1 + Names(thn);
      var end := mid + Length(els, slots);
      && Marked(thn, pos + TEST_LENGTH, n + 1, slots, labels) && Target(labels, Arm(n)) == mid
      && Marked(els, mid, n' + 1, slots, labels) && Target(labels, Out(n')) == end
      && Marked(rest, end, n' + 1 + Names(els), slots, labels)
  {
    hide Length, Names;
  }

  lemma CodeShape(block: W.Block, thn: W.Code, els: W.Code, rest: W.Code, pos: nat, mid: nat, next: nat, t: nat, e: nat,
                  slots: seq<Slot>, normal: int)
    requires t == Length(thn, slots) && e == Length(els, slots) && mid == pos + TEST_LENGTH + (t + 1) && next == mid + e
    ensures Compile(W.IfElse(block, thn, els, rest), pos, slots, normal) ==
            Five(TestCode(t + 1), Compile(thn, pos + TEST_LENGTH, slots, normal), [Branch(false, e + 1)],
                Compile(els, mid, slots, normal),
                 Compile(rest, next, slots, normal))
  {
    hide TestCode, Length, OpCode, OpLength, Five, Three;
  }

  // The whole function.

  /** A label and the items after it. */
  function Section(e: Emit, name: Label, items: seq<Item>): Emit { Add(Mark(e, name), items) }

  function PrepareItems(): seq<Item> {
    Code([MovReg(true, 14, 30), MovSp(15, 31), MovReg(true, 0, BUFFER)]) + [To(B, LongJmp)]
  }

  function RaiseItems(): seq<Item> {
    Code([MovReg(true, 30, 14), MovSp(31, 15)] + ReturnCode(1)) + [To(B, Label.Finalize)]
  }

  function GuardItems(): seq<Item> {
    [To(BL, SetJmp)] + (Code([CmpImm(true, 0, 0)]) + [To(BCond(NE), RaiseException)]) + Code(RestoreLinkCode())
  }

  /** The stub. */
  function StubEmit(n: nat): Emit {
    var a := Add(Emit([], map[], [], n), [To(B, Label.Entry)]);
    var b := Section(Section(a, SetJmp, Code(SetJmpCode())), PrepareLongJmp, PrepareItems());
    Section(Section(b, LongJmp, Code(LongJmpCode())), RaiseException, RaiseItems())
  }

  /** Everything before the body. */
  function Head(fn: Fn, n: nat): Emit {
    Section(StubEmit(n), Label.Entry, Code(EntryCode(fn)) + GuardItems()).(control := [Last])
  }

  /** The whole function: the head, the instructions of the body, the exit. */
  function Whole(fn: Fn, n: nat, fs: seq<Flat>): Option<Emit> {
    match Steps(Head(fn, n), fs, Slots(fn))
    case None => None
    case Some(e) => Some(Section(Add(e, Code(ReturnCode(0))), Label.Finalize, Code(FinalizeCode(fn))))
  }

  const HEAD_LABELS: map<Label, nat> :=
    map[SetJmp := SETJMP, PrepareLongJmp := PREPARE, LongJmp := LONGJMP, RaiseException := RAISE, Label.Entry := ENTRY]

  function StubItems(): seq<Item> {
    Five([To(B, Label.Entry)], Code(SetJmpCode()), PrepareItems(), Code(LongJmpCode()), RaiseItems())
  }

  function HeadItems(fn: Fn): seq<Item> { StubItems() + (Code(EntryCode(fn)) + GuardItems()) }

  lemma SectionIs(e: Emit, name: Label, items: seq<Item>)
    requires name !in e.labels
    ensures Section(e, name, items) == Emit(e.items + items, e.labels[name := |e.items|], e.control, e.next)
  {}

  lemma SectionLengths()
    ensures |Code(SetJmpCode())| == 10 && |PrepareItems()| == 4 && |Code(LongJmpCode())| == 12 && |RaiseItems()| == 5
    ensures |GuardItems()| == 4
  {
    StubLengths(0);
  }

  lemma HeadIs(fn: Fn, n: nat)
    ensures Head(fn, n) == Emit(HeadItems(fn), HEAD_LABELS, [Last], n)
    ensures |StubItems()| == ENTRY && |HeadItems(fn)| == BodyAt(fn)
  {
    hide SetJmpCode, LongJmpCode, EntryCode, PrepareItems, RaiseItems, GuardItems, Code, Section, Mark;
    SectionLengths();
    PartLengths(fn);
    var a := Emit([To(B, Label.Entry)], map[], [], n);
    assert Add(Emit([], map[], [], n), [To(B, Label.Entry)]) == a;
    SectionIs(a, SetJmp, Code(SetJmpCode()));
    var b := Emit(a.items + Code(SetJmpCode()), map[SetJmp := 1], [], n);
    SectionIs(b, PrepareLongJmp, PrepareItems());
    var c := Emit(b.items + PrepareItems(), map[SetJmp := 1, PrepareLongJmp := 11], [], n);
    SectionIs(c, LongJmp, Code(LongJmpCode()));
    var d := Emit(c.items + Code(LongJmpCode()), map[SetJmp := 1, PrepareLongJmp := 11, LongJmp := 15], [], n);
    SectionIs(d, RaiseException, RaiseItems());
    var e := Emit(d.items + RaiseItems(), map[SetJmp := 1, PrepareLongJmp := 11, LongJmp := 15, RaiseException := 27],
        [], n);
    SectionIs(e, Label.Entry, Code(EntryCode(fn)) + GuardItems());
    CodeLength(EntryCode(fn));
  }

  lemma CodeLength(c: seq<Instr>)
    ensures |Code(c)| == |c|
  {}

  // What the labels of the head resolve to.

  lemma ResolvePrepare(labels: map<Label, nat>)
    requires Target(labels, LongJmp) == LONGJMP
    ensures ResolveAll(PrepareItems(), PREPARE, labels) == PrepareCode()
  {
    hide ResolveAll, Target;
    var c := [MovReg(true, 14, 30), MovSp(15, 31), MovReg(true, 0, BUFFER)];
    ResolveBranch(c, B, LongJmp, PREPARE, labels);
    assert c + [Branch(false, 1)] == PrepareCode();
  }

  lemma ResolveRaise(labels: map<Label, nat>, finalize: int)
    requires Target(labels, Label.Finalize) == finalize
    ensures ResolveAll(RaiseItems(), RAISE, labels) == RaiseCode(finalize)
  {
    hide ResolveAll, Target;
    ResolveBranch([MovReg(true, 30, 14), MovSp(31, 15)] + ReturnCode(1), B, Label.Finalize, RAISE, labels);
  }

  lemma ResolveGuard(fn: Fn, labels: map<Label, nat>)
    requires Target(labels, SetJmp) == SETJMP && Target(labels, RaiseException) == RAISE
    ensures ResolveAll(GuardItems(), BackAt(fn) - 1, labels) == GuardCode(fn)
  {
    hide ResolveAll, Target, RestoreLinkCode, CmpImm;
    var pos, cmp := BackAt(fn) - 1, [CmpImm(true, 0, 0)];
    var a, b, c := [To(BL, SetJmp)], Code(cmp) + [To(BCond(NE), RaiseException)], Code(RestoreLinkCode());
    ResolveOne(BL, SetJmp, pos, labels);
    ResolveBranch(cmp, BCond(NE), RaiseException, pos + 1, labels);
    ResolveCode(RestoreLinkCode(), pos + 3, labels);
    ResolveThree(a, b, c, pos, pos + 1, pos + 3, labels, [Branch(true, SETJMP - pos)], cmp
        + [BranchCond(NE, RAISE - (pos + 2))], RestoreLinkCode());
    assert cmp + [BranchCond(NE, RAISE - (pos + 2))] == [CmpImm(true, 0, 0), BranchCond(NE, RAISE - (BackAt(fn) + 1))];
  }

  lemma StubIs(finalize: int)
    ensures StubCode(finalize) == Five([Branch(false, ENTRY)], SetJmpCode(), PrepareCode(), LongJmpCode(),
        RaiseCode(finalize))
  {
    hide SetJmpCode, PrepareCode, LongJmpCode, RaiseCode;
  }

  lemma ResolveStub(labels: map<Label, nat>, finalize: int)
    requires Target(labels, LongJmp) == LONGJMP && Target(labels, Label.Finalize) == finalize
        && Target(labels, Label.Entry) == ENTRY
    ensures ResolveAll(StubItems(), 0, labels) == StubCode(finalize)
  {
    hide ResolveAll, Target, SetJmpCode, LongJmpCode, PrepareItems, PrepareCode, RaiseItems, RaiseCode, Code, Five;
    SectionLengths();
    StubIs(finalize);
    ResolveOne(B, Label.Entry, 0, labels);
    ResolveCode(SetJmpCode(), SETJMP, labels);
    ResolvePrepare(labels);
    ResolveCode(LongJmpCode(), LONGJMP, labels);
    ResolveRaise(labels, finalize);
    ResolveFive([To(B, Label.Entry)], Code(SetJmpCode()), PrepareItems(), Code(LongJmpCode()), RaiseItems(), 0, SETJMP,
        PREPARE,
                LONGJMP, RAISE, labels,
                [Branch(false, ENTRY)], SetJmpCode(), PrepareCode(), LongJmpCode(), RaiseCode(finalize));
  }

  /** The head's labels, and `finalize`, are where the code wants them. */
  ghost predicate Placed(fn: Fn, labels: map<Label, nat>) {
    && Extends(HEAD_LABELS, labels) && Label.Finalize in labels && labels[Label.Finalize] == FinalizeAt(fn)
  }

  lemma PlacedTargets(fn: Fn, labels: map<Label, nat>)
    requires Placed(fn, labels)
    ensures Target(labels, SetJmp) == SETJMP && Target(labels, PrepareLongJmp) == PREPARE
        && Target(labels, LongJmp) == LONGJMP
    ensures Target(labels, RaiseException) == RAISE && Target(labels, Label.Entry) == ENTRY
        && Target(labels, Label.Finalize) == FinalizeAt(fn)
  {
    hide FinalizeAt;
    assert SetJmp in HEAD_LABELS && PrepareLongJmp in HEAD_LABELS && LongJmp in HEAD_LABELS;
    assert RaiseException in HEAD_LABELS && Label.Entry in HEAD_LABELS;
  }

  lemma ResolveHead(fn: Fn, labels: map<Label, nat>)
    requires Placed(fn, labels)
    ensures ResolveAll(HeadItems(fn), 0, labels) == StubCode(FinalizeAt(fn)) + EntryCode(fn) + GuardCode(fn)
  {
    hide ResolveAll, Target, StubItems, StubCode, EntryCode, GuardItems, GuardCode, Code, FinalizeAt, Placed;
    HeadIs(fn, 0);
    PartLengths(fn);
    CodeLength(EntryCode(fn));
    PlacedTargets(fn, labels);
    ResolveStub(labels, FinalizeAt(fn));
    ResolveCode(EntryCode(fn), ENTRY, labels);
    ResolveGuard(fn, labels);
    ResolveTwo(Code(EntryCode(fn)), GuardItems(), ENTRY, labels, EntryCode(fn), GuardCode(fn));
    ResolveTwo(StubItems(), Code(EntryCode(fn)) + GuardItems(), 0, labels, StubCode(FinalizeAt(fn)), EntryCode(fn)
        + GuardCode(fn));
    assert StubCode(FinalizeAt(fn)) + (EntryCode(fn) + GuardCode(fn)) ==
        StubCode(FinalizeAt(fn)) + EntryCode(fn) + GuardCode(fn);
  }

  /** After the body: the base entry of the control stack is closed, and the exit is added. */
  lemma ExitEmitted(e: Emit, e': Emit, fn: Fn)
    requires e.control == [Last] && Label.Finalize !in e.labels && Extends(HEAD_LABELS, e.labels)
    requires e' == Section(Add(Mark(e, Last).(control := []), Code(ReturnCode(0))), Label.Finalize,
        Code(FinalizeCode(fn)))
    requires |e.items| == FinalizeAt(fn) - 2
    ensures e'.items == e.items + (Code(ReturnCode(0)) + Code(FinalizeCode(fn))) && e'.control == []
        && e'.next == e.next
    ensures Extends(e.labels, e'.labels) && Placed(fn, e'.labels)
        && Target(e'.labels, NormalDiv) == Target(e.labels, NormalDiv)
  {
    hide FinalizeAt, FinalizeCode, Code;
    CodeLength(ReturnCode(0));
  }

  lemma StepsStop(e: Emit, slots: seq<Slot>)
    requires e.control == [Last]
    ensures Steps(e, [Stop], slots) == Some(Mark(e, Last).(control := []))
  {
    StepsOne(e, Stop, slots);
    assert e.control[..0] == [];
  }

  lemma BodyLabels(fn: Fn, n: nat, e: Emit)
    requires Emitted(fn.body, Head(fn, n), e, Slots(fn))
    ensures Label.Finalize !in e.labels && Extends(HEAD_LABELS, e.labels) && e.control == [Last]
        && e.next == n + Names(fn.body)
    ensures e.items == HeadItems(fn) + Items(fn.body, n, Slots(fn)) && |HeadItems(fn)| == BodyAt(fn)
    ensures Target(e.labels, NormalDiv) == Normal(fn.body, BodyAt(fn), Slots(fn))
    ensures Marked(fn.body, BodyAt(fn), n, Slots(fn), e.labels)
  {
    hide Head, HeadItems, Items, Divs, Marked, Names, BodyAt;
    HeadIs(fn, n);
  }

  lemma BelowHead(fn: Fn, n: nat)
    ensures Below(Head(fn, n))
  {
    hide Head, HeadItems;
    HeadIs(fn, n);
  }

  lemma FnCodeIs(fn: Fn, normal: int)
    ensures FnCode(fn, normal) ==
            StubCode(FinalizeAt(fn)) + EntryCode(fn) + GuardCode(fn) + Compile(fn.body, BodyAt(fn), Slots(fn), normal)
            + (ReturnCode(0) + FinalizeCode(fn))
  {
    hide StubCode, EntryCode, GuardCode, Compile, ReturnCode, FinalizeCode;
  }

  lemma ResolveWhole(fn: Fn, n: nat, items: seq<Item>, labels: map<Label, nat>)
    requires Placed(fn, labels) && Marked(fn.body, BodyAt(fn), n, Slots(fn), labels)
    requires Target(labels, NormalDiv) == Normal(fn.body, BodyAt(fn), Slots(fn))
    requires items == HeadItems(fn) + Items(fn.body, n, Slots(fn)) + (Code(ReturnCode(0)) + Code(FinalizeCode(fn)))
    ensures ResolveAll(items, 0, labels) == FnCode(fn, Normal(fn.body, BodyAt(fn), Slots(fn)))
  {
    var normal, slots, at := Normal(fn.body, BodyAt(fn), Slots(fn)), Slots(fn), BodyAt(fn);
    hide ResolveAll, Target, HeadItems, Items, ReturnCode, FinalizeCode, StubCode, EntryCode, GuardCode, Compile,
         Placed, Slots, BodyAt, Normal, Code, Marked, FinalizeAt, FnCode, Length;
    FnCodeIs(fn, normal);
    HeadIs(fn, n);
    PlacedTargets(fn, labels);
    ResolveHead(fn, labels);
    ResolveBody(fn.body, at, n, slots, labels);
    ItemsLength(fn.body, n, slots);
    var end := at + Length(fn.body, slots);
    ResolveCode(ReturnCode(0), end, labels);
    ResolveCode(FinalizeCode(fn), end + |Code(ReturnCode(0))|, labels);
    ResolveTwo(Code(ReturnCode(0)), Code(FinalizeCode(fn)), end, labels, ReturnCode(0), FinalizeCode(fn));
    var head, body := StubCode(FinalizeAt(fn)) + EntryCode(fn) + GuardCode(fn), Compile(fn.body, at, slots, normal);
    ResolveTwo(HeadItems(fn), Items(fn.body, n, slots), 0, labels, head, body);
    ResolveTwo(HeadItems(fn) + Items(fn.body, n, slots), Code(ReturnCode(0)) + Code(FinalizeCode(fn)), 0, labels, head
        + body,
               ReturnCode(0) + FinalizeCode(fn));
  }

  /**
   For every function, from any count of labels: one pass over the instructions of the body, with the first record of
   every label kept, and the resolution of every branch give exactly the structured code, `normal_div` standing for the
   first division; the control stack ends empty.
   */
  lemma WholeLinked(fn: Fn, n: nat) returns (e: Emit)
    requires VarsInRange(fn.body, Slots(fn))
    ensures Whole(fn, n, Flatten(fn.body) + [Stop]) == Some(e)
    ensures ResolveAll(e.items, 0, e.labels) == FnCode(fn, Normal(fn.body, BodyAt(fn), Slots(fn)))
    ensures e.control == [] && e.next == n + Names(fn.body)
  {
    hide Head, HeadItems, Items, FnCode, Steps, Emitted, Marked, Normal, Placed, Section, Target, ResolveAll, Code,
         ReturnCode, FinalizeCode, BodyAt, Extends;
    BelowHead(fn, n);
    var b := EmitBody(fn.body, Head(fn, n), Slots(fn));
    BodyLabels(fn, n, b);
    StepsStop(b, Slots(fn));
    StepsThen(Head(fn, n), Flatten(fn.body), b, [Stop], Mark(b, Last).(control := []), Slots(fn));
    e := Section(Add(Mark(b, Last).(control := []), Code(ReturnCode(0))), Label.Finalize, Code(FinalizeCode(fn)));
    ItemsLength(fn.body, n, Slots(fn));
    ExitEmitted(b, e, fn);
    MarkedExtends(fn.body, BodyAt(fn), n, Slots(fn), b.labels, e.labels);
    ResolveWhole(fn, n, e.items, e.labels);
  }
}
