/**
 Emission in one pass: words and branches to labels are appended, labels are recorded, and the branches are resolved
 at the end. The result is the code that `Codegen.Compile` describes.
 */
module Emission {
  import opened Numbers
  import opened Isa
  import opened Codegen
  import opened Body
  import W = Wasm

  /** The labels of the emitted text; `Arm` and `Out` are the two that `if` and `else` number. */
  datatype Label =
    | Entry | SetJmp | PrepareLongJmp | LongJmp | RaiseException | Finalize | NormalDiv | Last
    | Arm(n: nat) | Out(n: nat)

  /** A condition of the condition table. */
  type Cond = c: nat | c < 16

  datatype Kind = B | BL | BCond(cond: Cond)

  datatype Item = Ins(i: Instr) | To(kind: Kind, name: Label)

  /** The compiler's state: what it has emitted, the labels' words, the control-flow stack and the label counter. */
  datatype Emit = Emit(items: seq<Item>, labels: map<Label, nat>, control: seq<Label>, next: nat)

  /** One instruction of the unstructured body. */
  datatype Flat = Plain(op: W.Op) | If(block: W.Block) | Else | Stop

  function Code(c: seq<Instr>): (items: seq<Item>)
    ensures |items| == |c| && forall k :: 0 <= k < |c| ==> items[k] == Ins(c[k])
  {
    seq(|c|, k requires 0 <= k < |c| => Ins(c[k]))
  }

  function Add(e: Emit, items: seq<Item>): Emit { e.(items := e.items + items) }

  /** Recording a label: the first record stays. */
  function Mark(e: Emit, name: Label): Emit {
    if name in e.labels then e else e.(labels := e.labels[name := |e.items|])
  }

  /** What precedes the label of a division, and what follows it. */
  function DivItems(wide: bool): seq<Item> {
    Code(OperandsCode(wide) + [CmpImm(wide, 11, 0)]) + [To(BCond(EQ), PrepareLongJmp)]
    + (Code(MovCode(wide, 5, -1) + [CmpReg(wide, 11, 5)]) + [To(BCond(NE), NormalDiv)])
    + (Code(MovCode(wide, 5, -HalfSpan(wide)) + [CmpReg(wide, 12, 5)]) + [To(BCond(NE), NormalDiv)])
    + [To(B, PrepareLongJmp)]
  }

  function QuotientItems(wide: bool, arith: W.Arith): seq<Item> { Code([ArithInstr(wide, arith)] + PushCode(wide, 11)) }

  function TestItems(name: Label): seq<Item> {
    Code(TeeCode(false, 11) + [CmpImm(false, 11, 0)]) + [To(BCond(EQ), name)]
  }

  predicate InRange(op: W.Op, slots: seq<Slot>) { op.Get? || op.Put? || op.Tee? ==> op.i < |slots| }

  /**
   Emitting one instruction; nothing for a variable that is not there, or an `else` or `end` with nothing to close.
   */
  function Step(e: Emit, f: Flat, slots: seq<Slot>): Option<Emit> {
    match f
    case Plain(op) =>
      if !InRange(op, slots) then None
      else if IsDiv(op) then Some(Add(Mark(Add(e, DivItems(op.wide)), NormalDiv), QuotientItems(op.wide, op.arith)))
      else Some(Add(e, Code(OpCode(op, 0, slots, 0))))
    case If(_) =>
      var name := Arm(e.next);
      Some(Add(e, TestItems(name)).(control := e.control + [name], next := e.next + 1))
    case Else =>
      if e.control == [] then None
      else
        var top, name := |e.control| - 1, Out(e.next);
        Some(Mark(Add(e, [To(B, name)]), e.control[top]).(control := e.control[..top] + [name], next := e.next + 1))
    case Stop =>
      if e.control == [] then None
      else
        var top := |e.control| - 1;
        Some(Mark(e, e.control[top]).(control := e.control[..top]))
  }

  function Steps(e: Emit, fs: seq<Flat>, slots: seq<Slot>): Option<Emit>
    decreases |fs|
  {
    if fs == [] then Some(e)
    else
      match Step(e, fs[0], slots)
      case None => None
      case Some(e') => Steps(e', fs[1..], slots)
  }

  lemma {:induction false} StepsAppend(e: Emit, a: seq<Flat>, b: seq<Flat>, slots: seq<Slot>)
    ensures Steps(e, a + b, slots) == (match Steps(e, a, slots) case None => None case Some(e') => Steps(e', b, slots))
    decreases |a|
  {
    hide Step;
    if a == [] {
      assert a + b == b;
    } else {
      assert (a + b)[0] == a[0] && (a + b)[1..] == a[1..] + b;
      if Step(e, a[0], slots).Some? {
        StepsAppend(Step(e, a[0], slots).value, a[1..], b, slots);
      }
    }
  }

  /** The body as the sequence of instructions that the compiler reads. */
  function Flatten(c: W.Code): seq<Flat> {
    match c
    case End => []
    case Do(op, rest) => [Plain(op)] + Flatten(rest)
    case IfThen(block, thn, rest) => [If(block)] + Flatten(thn) + [Stop] + Flatten(rest)
    case IfElse(block, thn, els, rest) => [If(block)] + Flatten(thn) + [Else] + Flatten(els) + [Stop] + Flatten(rest)
  }

  /** The number of labels that a body takes. */
  function Names(c: W.Code): nat {
    match c
    case End => 0
    case Do(_, rest) => Names(rest)
    case IfThen(_, thn, rest) => 1 + Names(thn) + Names(rest)
    case IfElse(_, thn, els, rest) => 2 + Names(thn) + Names(els) + Names(rest)
  }

  predicate VarsInRange(c: W.Code, slots: seq<Slot>) {
    match c
    case End => true
    case Do(op, rest) => InRange(op, slots) && VarsInRange(rest, slots)
    case IfThen(_, thn, rest) => VarsInRange(thn, slots) && VarsInRange(rest, slots)
    case IfElse(_, thn, els, rest) => VarsInRange(thn, slots) && VarsInRange(els, slots) && VarsInRange(rest, slots)
  }

  // Resolution.

  function BranchTo(kind: Kind, dist: int): Instr {
    match kind case B => Branch(false, dist) case BL => Branch(true, dist) case BCond(cond) => BranchCond(cond, dist)
  }

  /** The word a label stands for; a label never recorded stands for word 0. */
  function Target(labels: map<Label, nat>, name: Label): nat { if name in labels then labels[name] else 0 }

  function Resolve(item: Item, pos: int, labels: map<Label, nat>): Instr {
    match item
    case Ins(i) => i
    case To(kind, name) => BranchTo(kind, Target(labels, name) - pos)
  }

  function ResolveAll(items: seq<Item>, pos: int, labels: map<Label, nat>): (code: seq<Instr>)
    ensures |code| == |items|
  {
    seq(|items|, k requires 0 <= k < |items| => Resolve(items[k], pos + k, labels))
  }

  lemma ResolveAppend(a: seq<Item>, b: seq<Item>, pos: int, labels: map<Label, nat>)
    ensures ResolveAll(a + b, pos, labels) == ResolveAll(a, pos, labels) + ResolveAll(b, pos + |a|, labels)
  {
    hide Resolve;
    var x, y := ResolveAll(a + b, pos, labels), ResolveAll(a, pos, labels) + ResolveAll(b, pos + |a|, labels);
    forall k | 0 <= k < |a| + |b| ensures x[k] == y[k] {
      if k >= |a| {
        assert pos + k == pos + |a| + (k - |a|);
      }
    }
  }

  lemma ResolveCode(c: seq<Instr>, pos: int, labels: map<Label, nat>)
    ensures ResolveAll(Code(c), pos, labels) == c
  {}

  lemma ResolveOne(kind: Kind, name: Label, pos: int, labels: map<Label, nat>)
    ensures ResolveAll([To(kind, name)], pos, labels) == [BranchTo(kind, Target(labels, name) - pos)]
  {}

  // What a body emits.

  function OpItems(op: W.Op, slots: seq<Slot>): seq<Item> {
    if IsDiv(op) then DivItems(op.wide) + QuotientItems(op.wide, op.arith) else Code(OpCode(op, 0, slots, 0))
  }

  /** The items of a body whose labels are numbered from `n` on. */
  function Items(c: W.Code, n: nat, slots: seq<Slot>): seq<Item>
    decreases c
  {
    match c
    case End => []
    case Do(op, rest) => OpItems(op, slots) + Items(rest, n, slots)
    case IfThen(_, thn, rest) => Three(TestItems(Arm(n)), Items(thn, n + 1, slots),
        Items(rest, n + 1 + Names(thn), slots))
    case IfElse(_, thn, els, rest) =>
      var n' := n + 1 + Names(thn);
      Five(TestItems(Arm(n)), Items(thn, n + 1, slots), [To(B, Out(n'))], Items(els, n' + 1, slots),
          Items(rest, n' + 1 + Names(els), slots))
  }

  /** The labels of a body at word `pos` stand for the starts of the `else` arms and the ends. */
  ghost predicate Marked(c: W.Code, pos: nat, n: nat, slots: seq<Slot>, labels: map<Label, nat>)
    decreases c
  {
    match c
    case End => true
    case Do(op, rest) => Marked(rest, pos + OpLength(op, slots), n, slots, labels)
    case IfThen(_, thn, rest) =>
      var end := pos + TEST_LENGTH + Length(thn, slots);
      && Marked(thn, pos + TEST_LENGTH, n + 1, slots, labels)
      && Arm(n) in labels && labels[Arm(n)] == end
      && Marked(rest, end, n + 1 + Names(thn), slots, labels)
    case IfElse(_, thn, els, rest) =>
      var mid, n' := pos + TEST_LENGTH + (Length(thn, slots) + 1), n + 1 + Names(thn);
      var end := mid + Length(els, slots);
      && Marked(thn, pos + TEST_LENGTH, n + 1, slots, labels)
      && Arm(n) in labels && labels[Arm(n)] == mid
      && Marked(els, mid, n' + 1, slots, labels)
      && Out(n') in labels && labels[Out(n')] == end
      && Marked(rest, end, n' + 1 + Names(els), slots, labels)
  }

  /** More labels do no harm: the first record of a label stays. */
  ghost predicate Extends(labels: map<Label, nat>, labels': map<Label, nat>) {
    forall l :: l in labels ==> l in labels' && labels'[l] == labels[l]
  }

  lemma {:induction false} MarkedExtends(c: W.Code, pos: nat, n: nat, slots: seq<Slot>, labels: map<Label, nat>,
      labels': map<Label, nat>)
    requires Marked(c, pos, n, slots, labels) && Extends(labels, labels')
    ensures Marked(c, pos, n, slots, labels')
    decreases c
  {
    hide OpLength, Length, Names;
    match c
    case End =>
    case Do(op, rest) => MarkedExtends(rest, pos + OpLength(op, slots), n, slots, labels, labels');
    case IfThen(_, thn, rest) =>
      MarkedExtends(thn, pos + TEST_LENGTH, n + 1, slots, labels, labels');
      MarkedExtends(rest, pos + TEST_LENGTH + Length(thn, slots), n + 1 + Names(thn), slots, labels, labels');
    case IfElse(_, thn, els, rest) =>
      var mid, n' := pos + TEST_LENGTH + (Length(thn, slots) + 1), n + 1 + Names(thn);
      MarkedExtends(thn, pos + TEST_LENGTH, n + 1, slots, labels, labels');
      MarkedExtends(els, mid, n' + 1, slots, labels, labels');
      MarkedExtends(rest, mid + Length(els, slots), n' + 1 + Names(els), slots, labels, labels');
  }

  /** A label numbered from `lo` up to `hi`, or the one of divisions. */
  predicate Among(l: Label, lo: nat, hi: nat) { l.NormalDiv? || ((l.Arm? || l.Out?) && lo <= l.n < hi) }

  /** Every number in use is below the counter. */
  ghost predicate Below(e: Emit) { forall l :: l in e.labels && (l.Arm? || l.Out?) ==> l.n < e.next }

  /** From `e` to `e'` the items were appended, and labels recorded only with numbers from `lo` on. */
  ghost predicate Grew(e: Emit, e': Emit, items: seq<Item>, lo: nat) {
    && e'.items == e.items + items && e.next <= e'.next && Extends(e.labels, e'.labels)
    && forall l :: l in e'.labels && l !in e.labels ==> Among(l, lo, e'.next)
  }

  lemma GrewTrans(e: Emit, e': Emit, e'': Emit, a: seq<Item>, b: seq<Item>, lo: nat, lo': nat)
    requires Grew(e, e', a, lo) && Grew(e', e'', b, lo') && lo <= lo'
    ensures Grew(e, e'', a + b, lo)
  {
    assert e.items + a + b == e.items + (a + b);
  }

  lemma OpItemsLength(op: W.Op, slots: seq<Slot>)
    ensures |OpItems(op, slots)| == OpLength(op, slots)
    ensures IsDiv(op) ==> |DivItems(op.wide)| == DivLabel(op.wide)
  {
    if !IsDiv(op) {
      OpCodeLength(op, 0, slots, 0);
    }
  }

  lemma TestItemsLength(l: Label)
    ensures |TestItems(l)| == TEST_LENGTH
  {}

  lemma {:induction false} ItemsLength(c: W.Code, n: nat, slots: seq<Slot>)
    ensures |Items(c, n, slots)| == Length(c, slots)
    decreases c
  {
    hide OpItems, OpLength, TestItems;
    match c
    case End =>
    case Do(op, rest) =>
      OpItemsLength(op, slots);
      ItemsLength(rest, n, slots);
    case IfThen(_, thn, rest) =>
      TestItemsLength(Arm(n));
      ItemsLength(thn, n + 1, slots);
      ItemsLength(rest, n + 1 + Names(thn), slots);
    case IfElse(_, thn, els, rest) =>
      var n' := n + 1 + Names(thn);
      TestItemsLength(Arm(n));
      ItemsLength(thn, n + 1, slots);
      ItemsLength(els, n' + 1, slots);
      ItemsLength(rest, n' + 1 + Names(els), slots);
  }

  // The words that `normal_div` could stand for.

  function OpDivs(op: W.Op, pos: nat): seq<nat> { if IsDiv(op) then [pos + DivLabel(op.wide)] else [] }

  /** The words of the divisions' labels in a body at word `pos`, in the order they are emitted. */
  function Divs(c: W.Code, pos: nat, slots: seq<Slot>): seq<nat>
    decreases c
  {
    match c
    case End => []
    case Do(op, rest) => OpDivs(op, pos) + Divs(rest, pos + OpLength(op, slots), slots)
    case IfThen(_, thn, rest) => Divs(thn, pos + TEST_LENGTH, slots)
        + Divs(rest, pos + TEST_LENGTH + Length(thn, slots), slots)
    case IfElse(_, thn, els, rest) =>
      var mid := pos + TEST_LENGTH + (Length(thn, slots) + 1);
      Divs(thn, pos + TEST_LENGTH, slots) + Divs(els, mid, slots) + Divs(rest, mid + Length(els, slots), slots)
  }

  /** The number of divisions in a body. */
  function Divisions(c: W.Code): nat {
    match c
    case End => 0
    case Do(op, rest) => (if IsDiv(op) then 1 else 0) + Divisions(rest)
    case IfThen(_, thn, rest) => Divisions(thn) + Divisions(rest)
    case IfElse(_, thn, els, rest) => Divisions(thn) + Divisions(els) + Divisions(rest)
  }

  /** The word that `normal_div` stands for: the first division's. */
  function Normal(c: W.Code, pos: nat, slots: seq<Slot>): nat {
    if Divs(c, pos, slots) == [] then 0 else Divs(c, pos, slots)[0]
  }

  lemma {:induction false} DivsCount(c: W.Code, pos: nat, slots: seq<Slot>)
    ensures |Divs(c, pos, slots)| == Divisions(c)
    decreases c
  {
    hide OpLength, Length;
    match c
    case End =>
    case Do(op, rest) => DivsCount(rest, pos + OpLength(op, slots), slots);
    case IfThen(_, thn, rest) =>
      DivsCount(thn, pos + TEST_LENGTH, slots);
      DivsCount(rest, pos + TEST_LENGTH + Length(thn, slots), slots);
    case IfElse(_, thn, els, rest) =>
      var mid := pos + TEST_LENGTH + (Length(thn, slots) + 1);
      DivsCount(thn, pos + TEST_LENGTH, slots);
      DivsCount(els, mid, slots);
      DivsCount(rest, mid + Length(els, slots), slots);
  }

  /** Rising from `lo` on, below `hi`. */
  ghost predicate Rising(ds: seq<nat>, lo: nat, hi: nat) {
    && (forall i :: 0 <= i < |ds| ==> lo <= ds[i] < hi)
    && forall i, j :: 0 <= i < j < |ds| ==> ds[i] < ds[j]
  }

  lemma RisingAppend(a: seq<nat>, b: seq<nat>, lo: nat, mid: nat, mid': nat, hi: nat)
    requires Rising(a, lo, mid) && Rising(b, mid', hi) && lo <= mid <= mid' <= hi
    ensures Rising(a + b, lo, hi)
  {}

  lemma RisingOp(op: W.Op, pos: nat, slots: seq<Slot>)
    ensures Rising(OpDivs(op, pos), pos, pos + OpLength(op, slots))
  {}

  lemma LengthParts(c: W.Code, slots: seq<Slot>)
    ensures c.End? ==> Length(c, slots) == 0
    ensures c.Do? ==> Length(c, slots) == OpLength(c.op, slots) + Length(c.rest, slots)
    ensures c.IfThen? ==> Length(c, slots) == TEST_LENGTH + Length(c.thn, slots) + Length(c.rest, slots)
    ensures c.IfElse? ==>
      Length(c, slots) == TEST_LENGTH + (Length(c.thn, slots) + 1) + Length(c.els, slots) + Length(c.rest, slots)
  {}

  lemma {:induction false} DivsInside(c: W.Code, pos: nat, slots: seq<Slot>)
    ensures Rising(Divs(c, pos, slots), pos, pos + Length(c, slots))
    decreases c
  {
    hide OpLength, Rising, Length, OpDivs;
    LengthParts(c, slots);
    match c
    case End => RisingNone(pos);
    case Do(op, rest) =>
      var next := pos + OpLength(op, slots);
      DivsInside(rest, next, slots);
      RisingOp(op, pos, slots);
      RisingAppend(OpDivs(op, pos), Divs(rest, next, slots), pos, next, next, next + Length(rest, slots));
    case IfThen(_, thn, rest) =>
      var first := pos + TEST_LENGTH;
      var next := first + Length(thn, slots);
      DivsInside(thn, first, slots);
      DivsInside(rest, next, slots);
      RisingLower(Divs(thn, first, slots), pos, first, next);
      RisingAppend(Divs(thn, first, slots), Divs(rest, next, slots), pos, next, next, next + Length(rest, slots));
    case IfElse(_, thn, els, rest) =>
      var first := pos + TEST_LENGTH;
      var mid := first + (Length(thn, slots) + 1);
      var next := mid + Length(els, slots);
      DivsInside(thn, first, slots);
      DivsInside(els, mid, slots);
      DivsInside(rest, next, slots);
      RisingThree(Divs(thn, first, slots), Divs(els, mid, slots), Divs(rest, next, slots), pos, first, mid, next, next
          + Length(rest, slots));
  }

  lemma RisingThree(a: seq<nat>, b: seq<nat>, c: seq<nat>, pos: nat, first: nat, mid: nat, next: nat, end: nat)
    requires pos <= first < mid <= next <= end && Rising(a, first, mid - 1) && Rising(b, mid, next)
        && Rising(c, next, end)
    ensures Rising(a + b + c, pos, end)
  {
    hide Rising;
    RisingLower(a, pos, first, mid - 1);
    RisingAppend(a, b, pos, mid - 1, mid, next);
    RisingAppend(a + b, c, pos, next, next, end);
  }

  lemma RisingNone(pos: nat)
    ensures Rising([], pos, pos)
  {}

  lemma RisingLower(ds: seq<nat>, lo: nat, lo': nat, hi: nat)
    requires Rising(ds, lo', hi) && lo <= lo'
    ensures Rising(ds, lo, hi)
  {}

  ghost predicate All(ds: seq<nat>, normal: int) { forall i :: 0 <= i < |ds| ==> ds[i] == normal }

  lemma AllAppend(a: seq<nat>, b: seq<nat>, normal: int)
    ensures All(a + b, normal) <==> All(a, normal) && All(b, normal)
  {
    if All(a + b, normal) {
      forall i | 0 <= i < |a| ensures a[i] == normal { assert (a + b)[i] == a[i]; }
      forall i | 0 <= i < |b| ensures b[i] == normal { assert (a + b)[|a| + i] == b[i]; }
    }
  }

  lemma AllOne(d: nat, normal: int)
    ensures All([d], normal) <==> d == normal
    ensures All([], normal)
  {
    assert All([d], normal) ==> [d][0] == normal;
  }

  lemma {:induction false} OwnDivs(c: W.Code, pos: nat, slots: seq<Slot>, normal: int)
    ensures OwnDiv(c, pos, slots, normal) <==> All(Divs(c, pos, slots), normal)
    decreases c
  {
    hide OpLength, Length, All;
    match c
    case End => AllOne(0, normal);
    case Do(op, rest) =>
      var next := pos + OpLength(op, slots);
      OwnDivs(rest, next, slots, normal);
      AllOne(if IsDiv(op) then pos + DivLabel(op.wide) else 0, normal);
      AllAppend(OpDivs(op, pos), Divs(rest, next, slots), normal);
    case IfThen(_, thn, rest) =>
      var first := pos + TEST_LENGTH;
      var next := first + Length(thn, slots);
      OwnDivs(thn, first, slots, normal);
      OwnDivs(rest, next, slots, normal);
      AllAppend(Divs(thn, first, slots), Divs(rest, next, slots), normal);
    case IfElse(_, thn, els, rest) =>
      var first := pos + TEST_LENGTH;
      var mid := first + (Length(thn, slots) + 1);
      var next := mid + Length(els, slots);
      OwnDivs(thn, first, slots, normal);
      OwnDivs(els, mid, slots, normal);
      OwnDivs(rest, next, slots, normal);
      AllAppend(Divs(thn, first, slots), Divs(els, mid, slots), normal);
      AllAppend(Divs(thn, first, slots) + Divs(els, mid, slots), Divs(rest, next, slots), normal);
  }

  /**
   Since only the first record of `normal_div` stays, it is every division's own exactly when there is at most one.
   */
  lemma OneDivision(c: W.Code, pos: nat, slots: seq<Slot>)
    ensures OwnDiv(c, pos, slots, Normal(c, pos, slots)) <==> Divisions(c) <= 1
  {
    var ds := Divs(c, pos, slots);
    DivsCount(c, pos, slots);
    DivsInside(c, pos, slots);
    OwnDivs(c, pos, slots, Normal(c, pos, slots));
    if |ds| >= 2 {
      assert ds[0] < ds[1];
    }
  }

  // Emission follows the structure of the body.

  /** After items with divisions at the words `ds`, the label `normal_div` has its first record. */
  ghost predicate FirstStays(e: Emit, e': Emit, ds: seq<nat>) {
    NormalDiv !in e.labels ==>
      if ds == [] then NormalDiv !in e'.labels else NormalDiv in e'.labels && e'.labels[NormalDiv] == ds[0]
  }

  lemma FirstTrans(e: Emit, e': Emit, e'': Emit, a: seq<nat>, b: seq<nat>)
    requires FirstStays(e, e', a) && FirstStays(e', e'', b) && Extends(e'.labels, e''.labels)
    ensures FirstStays(e, e'', a + b)
  {}

  /** Emission of items with divisions at `ds`: what one step, or several, have done. */
  ghost predicate Went(e: Emit, e': Emit, items: seq<Item>, lo: nat, ds: seq<nat>) {
    Grew(e, e', items, lo) && FirstStays(e, e', ds)
  }

  lemma WentTrans(e: Emit, e': Emit, e'': Emit, a: seq<Item>, b: seq<Item>, lo: nat, lo': nat, ds: seq<nat>,
      ds': seq<nat>)
    requires Went(e, e', a, lo, ds) && Went(e', e'', b, lo', ds') && lo <= lo'
    ensures Went(e, e'', a + b, lo, ds + ds')
  {
    GrewTrans(e, e', e'', a, b, lo, lo');
    FirstTrans(e, e', e'', ds, ds');
  }

  lemma WentExtends(e: Emit, e': Emit, items: seq<Item>, lo: nat, ds: seq<nat>)
    requires Went(e, e', items, lo, ds)
    ensures Extends(e.labels, e'.labels) && |e'.items| == |e.items| + |items|
    ensures Below(e) ==> Below(e')
  {}

  lemma StepOp(e: Emit, op: W.Op, slots: seq<Slot>) returns (e': Emit)
    requires InRange(op, slots)
    ensures Step(e, Plain(op), slots) == Some(e') && e'.control == e.control && e'.next == e.next
    ensures Went(e, e', OpItems(op, slots), e.next, OpDivs(op, |e.items|))
  {
    hide DivItems, QuotientItems, OpCode;
    e' := Step(e, Plain(op), slots).value;
    OpItemsLength(op, slots);
    if IsDiv(op) {
      assert e.items + DivItems(op.wide) + QuotientItems(op.wide, op.arith) ==
          e.items + (DivItems(op.wide) + QuotientItems(op.wide, op.arith));
    }
  }

  lemma StepIf(e: Emit, block: W.Block, slots: seq<Slot>) returns (e': Emit)
    ensures Step(e, If(block), slots) == Some(e') && e'.control == e.control + [Arm(e.next)] && e'.next == e.next + 1
    ensures e'.labels == e.labels
    ensures Went(e, e', TestItems(Arm(e.next)), e.next, [])
  {
    hide TestItems;
    e' := Step(e, If(block), slots).value;
  }

  /** `else` closes the first arm: the label on top of the control stack is recorded, and another takes its place. */
  lemma StepElse(e: Emit, control: seq<Label>, l: Label, lo: nat, slots: seq<Slot>) returns (e': Emit)
    requires e.control == control + [l] && l !in e.labels && Among(l, lo, e.next) && !l.NormalDiv?
    ensures Step(e, Else, slots) == Some(e') && e'.control == control + [Out(e.next)] && e'.next == e.next + 1
    ensures Went(e, e', [To(B, Out(e.next))], lo, []) && l in e'.labels && e'.labels[l] == |e'.items|
  {
    e' := Step(e, Else, slots).value;
  }

  /** `end` records the label on top of the control stack. */
  lemma StepStop(e: Emit, control: seq<Label>, l: Label, lo: nat, slots: seq<Slot>) returns (e': Emit)
    requires e.control == control + [l] && l !in e.labels && Among(l, lo, e.next) && !l.NormalDiv?
    ensures Step(e, Stop, slots) == Some(e') && e'.control == control && e'.next == e.next
    ensures Went(e, e', [], lo, []) && l in e'.labels && e'.labels[l] == |e.items|
  {
    e' := Step(e, Stop, slots).value;
  }

  lemma StepsOne(e: Emit, f: Flat, slots: seq<Slot>)
    ensures Steps(e, [f], slots) == Step(e, f, slots)
  {
    hide Step;
    if Step(e, f, slots).Some? {
      assert Steps(Step(e, f, slots).value, [f][1..], slots) == Step(e, f, slots);
    }
  }

  lemma StepsThen(e: Emit, a: seq<Flat>, e': Emit, b: seq<Flat>, e'': Emit, slots: seq<Slot>)
    requires Steps(e, a, slots) == Some(e') && Steps(e', b, slots) == Some(e'')
    ensures Steps(e, a + b, slots) == Some(e'')
  {
    StepsAppend(e, a, b, slots);
  }

  /** A label of the control stack has not been recorded before its block is closed. */
  lemma StillFresh(e: Emit, e': Emit, items: seq<Item>, lo: nat, ds: seq<nat>, l: Label)
    requires Went(e, e', items, lo, ds) && l !in e.labels && (l.Arm? || l.Out?) && l.n < lo
    ensures l !in e'.labels
  {}

  lemma UnusedFresh(e: Emit, l: Label)
    requires Below(e) && (l.Arm? || l.Out?) && l.n >= e.next
    ensures l !in e.labels
  {}

  /** What emitting a body does: its items, its labels, and the control stack as it was. */
  ghost predicate Emitted(c: W.Code, e: Emit, e': Emit, slots: seq<Slot>) {
    && Went(e, e', Items(c, e.next, slots), e.next, Divs(c, |e.items|, slots))
    && e'.control == e.control && e'.next == e.next + Names(c)
    && Marked(c, |e.items|, e.next, slots, e'.labels)
  }

  /** The instructions `fs` take `e` to `e'`, appending the items. */
  ghost predicate Part(e: Emit, e': Emit, fs: seq<Flat>, items: seq<Item>, lo: nat, ds: seq<nat>, slots: seq<Slot>) {
    Steps(e, fs, slots) == Some(e') && Went(e, e', items, lo, ds)
  }

  lemma PartTrans(e: Emit, e': Emit, e'': Emit, a: seq<Flat>, b: seq<Flat>, items: seq<Item>, items': seq<Item>,
                  lo: nat, lo': nat, ds: seq<nat>, ds': seq<nat>, slots: seq<Slot>)
    requires Part(e, e', a, items, lo, ds, slots) && Part(e', e'', b, items', lo', ds', slots) && lo <= lo'
    ensures Part(e, e'', a + b, items + items', lo, ds + ds', slots)
  {
    hide Steps, Went;
    StepsThen(e, a, e', b, e'', slots);
    WentTrans(e, e', e'', items, items', lo, lo', ds, ds');
  }

  /** After an arm: its block's label `l` is still to be recorded. */
  lemma ArmDone(thn: W.Code, e: Emit, e': Emit, l: Label, slots: seq<Slot>)
    requires Emitted(thn, e, e', slots) && l !in e.labels && (l.Arm? || l.Out?) && l.n < e.next && Below(e)
    ensures l !in e'.labels && |e'.items| == |e.items| + Length(thn, slots) && Below(e')
    ensures e'.control == e.control && e'.next == e.next + Names(thn) && Extends(e.labels, e'.labels)
    ensures Marked(thn, |e.items|, e.next, slots, e'.labels)
  {
    hide Marked, Items, Divs, Length, Went;
    ItemsLength(thn, e.next, slots);
    StillFresh(e, e', Items(thn, e.next, slots), e.next, Divs(thn, |e.items|, slots), l);
    WentExtends(e, e', Items(thn, e.next, slots), e.next, Divs(thn, |e.items|, slots));
  }

  lemma OpenIf(e: Emit, block: W.Block, slots: seq<Slot>) returns (e': Emit)
    requires Below(e)
    ensures Part(e, e', [If(block)], TestItems(Arm(e.next)), e.next, [], slots) && Below(e')
    ensures |e'.items| == |e.items| + TEST_LENGTH && e'.control == e.control + [Arm(e.next)] && e'.next == e.next + 1
    ensures Arm(e.next) !in e'.labels
  {
    hide TestItems, Went, Step;
    e' := StepIf(e, block, slots);
    StepsOne(e, If(block), slots);
    TestItemsLength(Arm(e.next));
    WentExtends(e, e', TestItems(Arm(e.next)), e.next, []);
    UnusedFresh(e, Arm(e.next));
  }

  lemma TurnElse(e: Emit, control: seq<Label>, l: Label, lo: nat, slots: seq<Slot>) returns (e': Emit)
    requires e.control == control + [l] && l !in e.labels && Among(l, lo, e.next) && !l.NormalDiv? && Below(e)
    ensures Part(e, e', [Else], [To(B, Out(e.next))], lo, [], slots) && Below(e') && Extends(e.labels, e'.labels)
    ensures |e'.items| == |e.items| + 1 && e'.control == control + [Out(e.next)] && e'.next == e.next + 1
    ensures l in e'.labels && e'.labels[l] == |e'.items| && Out(e.next) !in e'.labels
  {
    hide Went, Step;
    e' := StepElse(e, control, l, lo, slots);
    StepsOne(e, Else, slots);
    WentExtends(e, e', [To(B, Out(e.next))], lo, []);
    UnusedFresh(e, Out(e.next));
    OutFresh(e, e', l, slots);
  }

  lemma OutFresh(e: Emit, e': Emit, l: Label, slots: seq<Slot>)
    requires Step(e, Else, slots) == Some(e') && e.control != [] && e.control[|e.control| - 1] == l
    requires Out(e.next) !in e.labels && (l.Arm? || l.Out?) && l.n < e.next
    ensures Out(e.next) !in e'.labels
  {}

  lemma CloseIf(e: Emit, control: seq<Label>, l: Label, lo: nat, slots: seq<Slot>) returns (e': Emit)
    requires e.control == control + [l] && l !in e.labels && Among(l, lo, e.next) && !l.NormalDiv? && Below(e)
    ensures Part(e, e', [Stop], [], lo, [], slots) && Below(e') && Extends(e.labels, e'.labels)
    ensures e'.items == e.items && e'.control == control && e'.next == e.next
    ensures l in e'.labels && e'.labels[l] == |e.items|
  {
    hide Went, Step, Extends;
    e' := StepStop(e, control, l, lo, slots);
    StepsOne(e, Stop, slots);
    WentExtends(e, e', [], lo, []);
    SameItems(e, e', lo);
  }

  lemma SameItems(e: Emit, e': Emit, lo: nat)
    requires Went(e, e', [], lo, [])
    ensures e'.items == e.items
  {}

  lemma BodyPart(c: W.Code, e: Emit, e': Emit, slots: seq<Slot>)
    requires Steps(e, Flatten(c), slots) == Some(e') && Emitted(c, e, e', slots)
    ensures Part(e, e', Flatten(c), Items(c, e.next, slots), e.next, Divs(c, |e.items|, slots), slots)
    ensures Extends(e.labels, e'.labels) && Marked(c, |e.items|, e.next, slots, e'.labels)
    ensures e'.control == e.control && e'.next == e.next + Names(c)
  {
    hide Went, Marked, Items, Divs, Steps;
    WentExtends(e, e', Items(c, e.next, slots), e.next, Divs(c, |e.items|, slots));
  }

  lemma {:induction false} EmitBody(c: W.Code, e: Emit, slots: seq<Slot>) returns (e': Emit)
    requires VarsInRange(c, slots) && Below(e)
    ensures Steps(e, Flatten(c), slots) == Some(e') && Emitted(c, e, e', slots)
    decreases c, 2
  {
    hide Steps, Went, OpItems, OpLength, OpDivs;
    match c
    case End =>
      e' := e;
      EmitNone(e, slots);
    case Do(op, rest) =>
      var d := StepOp(e, op, slots);
      StepsOne(e, Plain(op), slots);
      OpItemsLength(op, slots);
      WentExtends(e, d, OpItems(op, slots), e.next, OpDivs(op, |e.items|));
      e' := EmitBody(rest, d, slots);
      StepsThen(e, [Plain(op)], d, Flatten(rest), e', slots);
      WentTrans(e, d, e', OpItems(op, slots), Items(rest, e.next, slots), e.next, e.next, OpDivs(op, |e.items|),
          Divs(rest, |d.items|, slots));
    case IfThen(block, thn, rest) => e' := EmitIfThen(block, thn, rest, e, slots);
    case IfElse(block, thn, els, rest) => e' := EmitIfElse(block, thn, els, rest, e, slots);
  }

  lemma EmitNone(e: Emit, slots: seq<Slot>)
    ensures Steps(e, [], slots) == Some(e) && Went(e, e, [], e.next, [])
  {}

  lemma ExtendsAt(labels: map<Label, nat>, labels': map<Label, nat>, l: Label)
    requires Extends(labels, labels') && l in labels
    ensures l in labels' && labels'[l] == labels[l]
  {}

  /** The parts of an `if` without `else`, put together. */
  lemma JoinIfThen(block: W.Block, thn: W.Code, rest: W.Code, e: Emit, e1: Emit, e2: Emit, e3: Emit, e': Emit,
      slots: seq<Slot>)
    requires Part(e, e1, [If(block)], TestItems(Arm(e.next)), e.next, [], slots)
    requires e1.next == e.next + 1 && |e1.items| == |e.items| + TEST_LENGTH
    requires Part(e1, e2, Flatten(thn), Items(thn, e1.next, slots), e1.next, Divs(thn, |e1.items|, slots), slots)
    requires Part(e2, e3, [Stop], [], e.next, [], slots) && e3.next == e1.next + Names(thn)
        && |e3.items| == |e1.items| + Length(thn, slots)
    requires Part(e3, e', Flatten(rest), Items(rest, e3.next, slots), e3.next, Divs(rest, |e3.items|, slots), slots)
    ensures
      var c := W.IfThen(block, thn, rest);
      Part(e, e', Flatten(c), Items(c, e.next, slots), e.next, Divs(c, |e.items|, slots), slots)
  {
    hide *;
    PartFour(e, e1, e2, e3, e', [If(block)], Flatten(thn), [Stop], Flatten(rest), TestItems(Arm(e.next)),
        Items(thn, e1.next, slots),
             Items(rest, e3.next, slots), e.next, e1.next, e3.next, Divs(thn, |e1.items|, slots),
                 Divs(rest, |e3.items|, slots), slots);
    IfThenShape(block, thn, rest, e.next, e1.next, e3.next, |e.items|, |e3.items|, slots);
  }

  lemma IfThenShape(block: W.Block, thn: W.Code, rest: W.Code, n: nat, n': nat, n'': nat, pos: nat, next: nat,
      slots: seq<Slot>)
    requires n' == n + 1 && n'' == n' + Names(thn) && next == pos + TEST_LENGTH + Length(thn, slots)
    ensures Flatten(W.IfThen(block, thn, rest)) == [If(block)] + Flatten(thn) + [Stop] + Flatten(rest)
    ensures Items(W.IfThen(block, thn, rest), n, slots) ==
        Three(TestItems(Arm(n)), Items(thn, n', slots), Items(rest, n'', slots))
    ensures Divs(W.IfThen(block, thn, rest), pos, slots) ==
        Divs(thn, pos + TEST_LENGTH, slots) + Divs(rest, next, slots)
  {
    hide TestItems, Length, Names, Three, OpItems, OpDivs, OpLength;
  }

  lemma PartFour(e: Emit, e1: Emit, e2: Emit, e3: Emit, e': Emit, a: seq<Flat>, b: seq<Flat>, c: seq<Flat>,
      d: seq<Flat>,
                 u: seq<Item>, v: seq<Item>, z: seq<Item>, n: nat, n1: nat, n3: nat, ds: seq<nat>, ds': seq<nat>,
                     slots: seq<Slot>)
    requires Part(e, e1, a, u, n, [], slots) && Part(e1, e2, b, v, n1, ds, slots) && Part(e2, e3, c, [], n, [], slots)
    requires Part(e3, e', d, z, n3, ds', slots) && n <= n1 && n <= n3
    ensures Part(e, e', a + b + c + d, Three(u, v, z), n, ds + ds', slots)
  {
    hide Part;
    PartTrans(e, e1, e2, a, b, u, v, n, n1, [], ds, slots);
    PartTrans(e, e2, e3, a + b, c, u + v, [], n, n, [] + ds, [], slots);
    PartTrans(e, e3, e', a + b + c, d, u + v + [], z, n, n3, [] + ds + [], ds', slots);
    assert u + v + [] == u + v && [] + ds + [] == ds;
  }

  lemma {:induction false} EmitIfThen(block: W.Block, thn: W.Code, rest: W.Code, e: Emit, slots: seq<Slot>)
      returns (e': Emit)
    requires VarsInRange(thn, slots) && VarsInRange(rest, slots) && Below(e)
    ensures Steps(e, Flatten(W.IfThen(block, thn, rest)), slots) == Some(e')
        && Emitted(W.IfThen(block, thn, rest), e, e', slots)
    decreases W.IfThen(block, thn, rest), 0
  {
    hide Steps, Step, Went, Below, Extends, TestItems, VarsInRange, Items, Divs, Flatten, Length, Names, Marked;
    var l := Arm(e.next);
    var e1 := OpenIf(e, block, slots);
    var e2 := EmitBody(thn, e1, slots);
    BodyPart(thn, e1, e2, slots);
    ArmDone(thn, e1, e2, l, slots);
    var e3 := CloseIf(e2, e.control, l, e.next, slots);
    e' := EmitBody(rest, e3, slots);
    BodyPart(rest, e3, e', slots);
    JoinIfThen(block, thn, rest, e, e1, e2, e3, e', slots);
    ExtendsTrans(e2.labels, e3.labels, e'.labels);
    MarkedExtends(thn, |e1.items|, e1.next, slots, e2.labels, e'.labels);
    ExtendsAt(e3.labels, e'.labels, l);
    MarkedThen(block, thn, rest, |e.items|, |e3.items|, e.next, e3.next, slots, e'.labels);
    NamesThen(block, thn, rest);
  }

  lemma NamesThen(block: W.Block, thn: W.Code, rest: W.Code)
    ensures Names(W.IfThen(block, thn, rest)) == 1 + Names(thn) + Names(rest)
  {}

  lemma MarkedThen(block: W.Block, thn: W.Code, rest: W.Code, pos: nat, end: nat, n: nat, n': nat, slots: seq<Slot>,
      labels: map<Label, nat>)
    requires end == pos + TEST_LENGTH + Length(thn, slots) && n' == n + 1 + Names(thn)
    requires Marked(thn, pos + TEST_LENGTH, n + 1, slots, labels) && Arm(n) in labels && labels[Arm(n)] == end
    requires Marked(rest, end, n', slots, labels)
    ensures Marked(W.IfThen(block, thn, rest), pos, n, slots, labels)
  {
    hide Length, Names;
  }

  /** The parts of an `if` with two arms, put together. */
  lemma JoinIfElse(block: W.Block, thn: W.Code, els: W.Code, rest: W.Code,
                   e: Emit, e1: Emit, e2: Emit, e3: Emit, e4: Emit, e5: Emit, e': Emit, slots: seq<Slot>)
    requires Part(e, e1, [If(block)], TestItems(Arm(e.next)), e.next, [], slots)
    requires e1.next == e.next + 1 && |e1.items| == |e.items| + TEST_LENGTH
    requires Part(e1, e2, Flatten(thn), Items(thn, e1.next, slots), e1.next, Divs(thn, |e1.items|, slots), slots)
    requires Part(e2, e3, [Else], [To(B, Out(e2.next))], e.next, [], slots)
    requires e2.next == e1.next + Names(thn) && e3.next == e2.next + 1
        && |e3.items| == |e1.items| + (Length(thn, slots) + 1)
    requires Part(e3, e4, Flatten(els), Items(els, e3.next, slots), e3.next, Divs(els, |e3.items|, slots), slots)
    requires Part(e4, e5, [Stop], [], e.next, [], slots) && e5.next == e3.next + Names(els)
        && |e5.items| == |e3.items| + Length(els, slots)
    requires Part(e5, e', Flatten(rest), Items(rest, e5.next, slots), e5.next, Divs(rest, |e5.items|, slots), slots)
    ensures
      var c := W.IfElse(block, thn, els, rest);
      Part(e, e', Flatten(c), Items(c, e.next, slots), e.next, Divs(c, |e.items|, slots), slots)
  {
    hide *;
    PartSix(e, e1, e2, e3, e4, e5, e', [If(block)], Flatten(thn), [Else], Flatten(els), [Stop], Flatten(rest),
            TestItems(Arm(e.next)), Items(thn, e1.next, slots), [To(B, Out(e2.next))], Items(els, e3.next, slots),
                Items(rest, e5.next, slots),
            e.next, e1.next, e3.next, e5.next, Divs(thn, |e1.items|, slots), Divs(els, |e3.items|, slots),
                Divs(rest, |e5.items|, slots), slots);
    IfElseShape(block, thn, els, rest, e.next, e2.next, e3.next, e5.next, |e.items|, |e3.items|, |e5.items|, slots);
  }

  lemma IfElseShape(block: W.Block, thn: W.Code, els: W.Code, rest: W.Code, n: nat, n': nat, n'': nat, last: nat,
                    pos: nat, mid: nat, next: nat, slots: seq<Slot>)
    requires n' == n + 1 + Names(thn) && n'' == n' + 1 && last == n'' + Names(els)
    requires mid == pos + TEST_LENGTH + (Length(thn, slots) + 1) && next == mid + Length(els, slots)
    ensures Flatten(W.IfElse(block, thn, els, rest)) ==
        [If(block)] + Flatten(thn) + [Else] + Flatten(els) + [Stop] + Flatten(rest)
    ensures Items(W.IfElse(block, thn, els, rest), n, slots) ==
            Five(TestItems(Arm(n)), Items(thn, n + 1, slots), [To(B, Out(n'))], Items(els, n'', slots),
                Items(rest, last, slots))
    ensures Divs(W.IfElse(block, thn, els, rest), pos, slots) ==
            Divs(thn, pos + TEST_LENGTH, slots) + Divs(els, mid, slots) + Divs(rest, next, slots)
  {
    hide *;
    ItemsShape(block, thn, els, rest, n, n', n'', last, slots);
    DivsShape(block, thn, els, rest, pos, mid, next, slots);
    FlattenShape(block, thn, els, rest);
  }

  lemma FlattenShape(block: W.Block, thn: W.Code, els: W.Code, rest: W.Code)
    ensures Flatten(W.IfElse(block, thn, els, rest)) ==
        [If(block)] + Flatten(thn) + [Else] + Flatten(els) + [Stop] + Flatten(rest)
  {}

  lemma ItemsShape(block: W.Block, thn: W.Code, els: W.Code, rest: W.Code, n: nat, n': nat, n'': nat, last: nat,
      slots: seq<Slot>)
    requires n' == n + 1 + Names(thn) && n'' == n' + 1 && last == n'' + Names(els)
    ensures Items(W.IfElse(block, thn, els, rest), n, slots) ==
            Five(TestItems(Arm(n)), Items(thn, n + 1, slots), [To(B, Out(n'))], Items(els, n'', slots),
                Items(rest, last, slots))
  {
    hide TestItems, Names, OpItems, Five;
  }

  lemma DivsShape(block: W.Block, thn: W.Code, els: W.Code, rest: W.Code, pos: nat, mid: nat, next: nat,
      slots: seq<Slot>)
    requires mid == pos + TEST_LENGTH + (Length(thn, slots) + 1) && next == mid + Length(els, slots)
    ensures Divs(W.IfElse(block, thn, els, rest), pos, slots) ==
            Divs(thn, pos + TEST_LENGTH, slots) + Divs(els, mid, slots) + Divs(rest, next, slots)
  {
    hide Length, OpDivs, OpLength;
  }

  lemma PartSix(e: Emit, e1: Emit, e2: Emit, e3: Emit, e4: Emit, e5: Emit, e': Emit,
                a: seq<Flat>, b: seq<Flat>, c: seq<Flat>, d: seq<Flat>, f: seq<Flat>, g: seq<Flat>,
                u: seq<Item>, v: seq<Item>, w: seq<Item>, x: seq<Item>, z: seq<Item>,
                n: nat, n1: nat, n3: nat, n5: nat, ds: seq<nat>, ds': seq<nat>, ds'': seq<nat>, slots: seq<Slot>)
    requires Part(e, e1, a, u, n, [], slots) && Part(e1, e2, b, v, n1, ds, slots) && Part(e2, e3, c, w, n, [], slots)
    requires Part(e3, e4, d, x, n3, ds', slots) && Part(e4, e5, f, [], n, [], slots)
        && Part(e5, e', g, z, n5, ds'', slots)
    requires n <= n1 && n <= n3 && n <= n5
    ensures Part(e, e', a + b + c + d + f + g, Five(u, v, w, x, z), n, ds + ds' + ds'', slots)
  {
    hide Part;
    PartTrans(e, e1, e2, a, b, u, v, n, n1, [], ds, slots);
    PartTrans(e, e2, e3, a + b, c, u + v, w, n, n, [] + ds, [], slots);
    PartTrans(e, e3, e4, a + b + c, d, u + v + w, x, n, n3, [] + ds + [], ds', slots);
    PartTrans(e, e4, e5, a + b + c + d, f, u + v + w + x, [], n, n, [] + ds + [] + ds', [], slots);
    PartTrans(e, e5, e', a + b + c + d + f, g, u + v + w + x + [], z, n, n5, [] + ds + [] + ds' + [], ds'', slots);
    assert u + v + w + x + [] == u + v + w + x && [] + ds + [] + ds' + [] == ds + ds';
  }

  /** What the arms of an `if` leave to be emitted: the rest, from `e5` on. */
  ghost predicate TwoArms(thn: W.Code, els: W.Code, e: Emit, e5: Emit, slots: seq<Slot>) {
    var first, n' := |e.items| + TEST_LENGTH, e.next + 1 + Names(thn);
    var mid := first + (Length(thn, slots) + 1);
    && Marked(thn, first, e.next + 1, slots, e5.labels) && Arm(e.next) in e5.labels && e5.labels[Arm(e.next)] == mid
    && Marked(els, mid, n' + 1, slots, e5.labels) && Out(n') in e5.labels
        && e5.labels[Out(n')] == mid + Length(els, slots)
    && |e5.items| == mid + Length(els, slots) && e5.next == n' + 1 + Names(els) && e5.control == e.control && Below(e5)
  }

  lemma {:induction false} EmitArms(block: W.Block, thn: W.Code, els: W.Code, rest: W.Code, e: Emit, slots: seq<Slot>)
    returns (e1: Emit, e2: Emit, e3: Emit, e4: Emit, e5: Emit)
    requires VarsInRange(thn, slots) && VarsInRange(els, slots) && Below(e)
    ensures Part(e, e1, [If(block)], TestItems(Arm(e.next)), e.next, [], slots)
    ensures e1.next == e.next + 1 && |e1.items| == |e.items| + TEST_LENGTH
    ensures Part(e1, e2, Flatten(thn), Items(thn, e1.next, slots), e1.next, Divs(thn, |e1.items|, slots), slots)
    ensures Part(e2, e3, [Else], [To(B, Out(e2.next))], e.next, [], slots)
    ensures e2.next == e1.next + Names(thn) && e3.next == e2.next + 1
        && |e3.items| == |e1.items| + (Length(thn, slots) + 1)
    ensures Part(e3, e4, Flatten(els), Items(els, e3.next, slots), e3.next, Divs(els, |e3.items|, slots), slots)
    ensures Part(e4, e5, [Stop], [], e.next, [], slots) && e5.next == e3.next + Names(els)
        && |e5.items| == |e3.items| + Length(els, slots)
    ensures TwoArms(thn, els, e, e5, slots)
    decreases W.IfElse(block, thn, els, rest), 0
  {
    hide Steps, Step, Went, Below, Extends, TestItems, VarsInRange, Items, Divs, Flatten, Length, Names, Marked, Part,
         Emitted;
    var l := Arm(e.next);
    e1 := OpenIf(e, block, slots);
    e2 := EmitBody(thn, e1, slots);
    BodyPart(thn, e1, e2, slots);
    ArmDone(thn, e1, e2, l, slots);
    e3 := TurnElse(e2, e.control, l, e.next, slots);
    var m := Out(e2.next);
    e4 := EmitBody(els, e3, slots);
    BodyPart(els, e3, e4, slots);
    ArmDone(els, e3, e4, m, slots);
    e5 := CloseIf(e4, e.control, m, e.next, slots);
    ExtendsTrans(e3.labels, e4.labels, e5.labels);
    ExtendsTrans(e2.labels, e3.labels, e5.labels);
    MarkedExtends(thn, |e1.items|, e1.next, slots, e2.labels, e5.labels);
    MarkedExtends(els, |e3.items|, e3.next, slots, e4.labels, e5.labels);
    ExtendsAt(e3.labels, e5.labels, l);
  }

  lemma MarkedIfElse(block: W.Block, thn: W.Code, els: W.Code, rest: W.Code, e: Emit, e5: Emit, e': Emit,
      slots: seq<Slot>)
    requires TwoArms(thn, els, e, e5, slots) && Extends(e5.labels, e'.labels)
        && Marked(rest, |e5.items|, e5.next, slots, e'.labels)
    ensures Marked(W.IfElse(block, thn, els, rest), |e.items|, e.next, slots, e'.labels)
  {
    hide Extends, Length, Names, Below, Marked;
    var mid, n' := |e.items| + TEST_LENGTH + (Length(thn, slots) + 1), e.next + 1 + Names(thn);
    MarkedExtends(thn, |e.items| + TEST_LENGTH, e.next + 1, slots, e5.labels, e'.labels);
    MarkedExtends(els, mid, n' + 1, slots, e5.labels, e'.labels);
    ExtendsAt(e5.labels, e'.labels, Arm(e.next));
    ExtendsAt(e5.labels, e'.labels, Out(n'));
    MarkedShape(block, thn, els, rest, |e.items|, mid, mid + Length(els, slots), e.next, n', slots, e'.labels);
  }

  lemma MarkedShape(block: W.Block, thn: W.Code, els: W.Code, rest: W.Code, pos: nat, mid: nat, end: nat, n: nat,
      n': nat,
                    slots: seq<Slot>, labels: map<Label, nat>)
    requires mid == pos + TEST_LENGTH + (Length(thn, slots) + 1) && end == mid + Length(els, slots)
        && n' == n + 1 + Names(thn)
    requires Marked(thn, pos + TEST_LENGTH, n + 1, slots, labels) && Arm(n) in labels && labels[Arm(n)] == mid
    requires Marked(els, mid, n' + 1, slots, labels) && Out(n') in labels && labels[Out(n')] == end
    requires Marked(rest, end, n' + 1 + Names(els), slots, labels)
    ensures Marked(W.IfElse(block, thn, els, rest), pos, n, slots, labels)
  {
    hide Length, Names;
  }

  lemma {:induction false} EmitIfElse(block: W.Block, thn: W.Code, els: W.Code, rest: W.Code, e: Emit,
      slots: seq<Slot>) returns (e': Emit)
    requires VarsInRange(thn, slots) && VarsInRange(els, slots) && VarsInRange(rest, slots) && Below(e)
    ensures Steps(e, Flatten(W.IfElse(block, thn, els, rest)), slots) == Some(e')
    ensures Emitted(W.IfElse(block, thn, els, rest), e, e', slots)
    decreases W.IfElse(block, thn, els, rest), 1
  {
    hide Steps, Went, Below, Extends, VarsInRange, Items, Divs, Flatten, Length, Marked;
    var e1, e2, e3, e4, e5 := EmitArms(block, thn, els, rest, e, slots);
    e' := EmitBody(rest, e5, slots);
    BodyPart(rest, e5, e', slots);
    JoinIfElse(block, thn, els, rest, e, e1, e2, e3, e4, e5, e', slots);
    MarkedIfElse(block, thn, els, rest, e, e5, e', slots);
  }

  lemma ExtendsTrans(a: map<Label, nat>, b: map<Label, nat>, c: map<Label, nat>)
    requires Extends(a, b) && Extends(b, c)
    ensures Extends(a, c)
  {}

  // The control stack.

  /** Every `else` and `end` closes one of the `depth` blocks open before the instructions or one they open. */
  predicate Nested(fs: seq<Flat>, depth: nat)
    decreases |fs|
  {
    if fs == [] then true
    else
      match fs[0]
      case Plain(_) => Nested(fs[1..], depth)
      case If(_) => Nested(fs[1..], depth + 1)
      case Else => depth > 0 && Nested(fs[1..], depth)
      case Stop => depth > 0 && Nested(fs[1..], depth - 1)
  }

  /** The blocks opened and not closed. */
  function Open(fs: seq<Flat>): int
    decreases |fs|
  {
    if fs == [] then 0 else (if fs[0].If? then 1 else if fs[0].Stop? then -1 else 0) + Open(fs[1..])
  }

  /** The structured body closes what it opens. */
  lemma {:induction false} NestedBody(c: W.Code, more: seq<Flat>, depth: nat)
    requires Nested(more, depth)
    ensures Nested(Flatten(c) + more, depth)
    decreases c
  {
    hide Nested;
    match c
    case End => assert Flatten(c) + more == more;
    case Do(op, rest) =>
      NestedBody(rest, more, depth);
      NestedFirst(Plain(op), Flatten(rest) + more, depth, depth);
      assert Flatten(c) + more == [Plain(op)] + (Flatten(rest) + more);
    case IfThen(block, thn, rest) =>
      var a := Flatten(rest) + more;
      NestedBody(rest, more, depth);
      NestedFirst(Stop, a, depth + 1, depth);
      NestedBody(thn, [Stop] + a, depth + 1);
      NestedFirst(If(block), Flatten(thn) + ([Stop] + a), depth, depth + 1);
      Regroup([If(block)], Flatten(thn), [Stop], Flatten(rest), more);
    case IfElse(block, thn, els, rest) =>
      var a := Flatten(rest) + more;
      var b := Flatten(els) + ([Stop] + a);
      NestedBody(rest, more, depth);
      NestedFirst(Stop, a, depth + 1, depth);
      NestedBody(els, [Stop] + a, depth + 1);
      NestedFirst(Else, b, depth + 1, depth + 1);
      NestedBody(thn, [Else] + b, depth + 1);
      NestedFirst(If(block), Flatten(thn) + ([Else] + b), depth, depth + 1);
      Regroup([If(block)], Flatten(thn), [Else], Flatten(els), [Stop] + a);
      Regroup([If(block)] + Flatten(thn) + [Else], Flatten(els), [Stop], Flatten(rest), more);
  }

  lemma Regroup(a: seq<Flat>, b: seq<Flat>, c: seq<Flat>, d: seq<Flat>, e: seq<Flat>)
    ensures a + b + c + d + e == a + (b + (c + (d + e)))
    ensures a + b + c + d + e == a + b + c + (d + e)
  {}

  lemma NestedFirst(f: Flat, fs: seq<Flat>, depth: nat, depth': nat)
    requires Nested(fs, depth') && depth' == (if f.If? then depth + 1 else if f.Stop? then depth - 1 else depth)
        && (f.Else? || f.Stop? ==> depth > 0)
    ensures Nested([f] + fs, depth)
  {
    assert ([f] + fs)[1..] == fs;
  }

  /** What one instruction does to the control stack. */
  lemma StepControl(e: Emit, f: Flat, slots: seq<Slot>)
    requires Step(e, f, slots).Some?
    ensures
      var e' := Step(e, f, slots).value;
      var top := |e.control| - 1;
      match f
      case Plain(_) => e'.control == e.control
      case If(_) => |e'.control| == |e.control| + 1 && e'.control[..|e.control|] == e.control
      case Else => top >= 0 && |e'.control| == |e.control| && e'.control[..top] == e.control[..top]
      case Stop => top >= 0 && e'.control == e.control[..top]
  {
    hide TestItems, DivItems, QuotientItems, OpCode, InRange, IsDiv;
  }

  /** Entries below the open blocks are untouched by one instruction, when it closes none of them. */
  lemma StepBase(e: Emit, f: Flat, depth: nat, slots: seq<Slot>)
    requires Step(e, f, slots).Some? && depth <= |e.control| && (f.Else? || f.Stop? ==> depth > 0)
    ensures
      var d := Step(e, f, slots).value;
      var base := |e.control| - depth;
      && |d.control| == |e.control| + (if f.If? then 1 else if f.Stop? then -1 else 0)
      && base <= |d.control| && d.control[..base] == e.control[..base]
  {
    hide Step;
    StepControl(e, f, slots);
    var d, base := Step(e, f, slots).value, |e.control| - depth;
    forall k | 0 <= k < base ensures d.control[k] == e.control[k] {
      var top := |e.control| - 1;
      if f.If? {
        assert d.control[..|e.control|][k] == e.control[k];
      } else if f.Else? {
        assert d.control[..top][k] == e.control[..top][k];
      }
    }
  }

  /**
   On every prefix of a well-nested body the control stack is the entries it began with and one for each block that is
   open; the entries below those blocks are untouched.
   */
  lemma {:induction false} PrefixControl(fs: seq<Flat>, k: nat, depth: nat, e: Emit, slots: seq<Slot>)
    requires Nested(fs, depth) && depth <= |e.control| && k <= |fs| && Steps(e, fs[..k], slots).Some?
    ensures
      var e' := Steps(e, fs[..k], slots).value;
      && 0 <= depth + Open(fs[..k]) && |e'.control| == |e.control| + Open(fs[..k])
      && |e.control| - depth <= |e'.control| && e'.control[..|e.control| - depth] == e.control[..|e.control| - depth]
    decreases k
  {
    hide Step;
    if k > 0 {
      var d := Step(e, fs[0], slots).value;
      var depth' := if fs[0].If? then depth + 1 else if fs[0].Stop? then depth - 1 else depth;
      assert fs[..k][0] == fs[0] && fs[..k][1..] == fs[1..][..k - 1];
      StepBase(e, fs[0], depth, slots);
      PrefixControl(fs[1..], k - 1, depth', d, slots);
    }
  }
}
