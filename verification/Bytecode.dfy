/** The bytes of a function body as the compiler reads them. */
module Bytecode {
  import opened Numbers
  import opened Results
  import opened Emission
  import Codegen
  import W = Wasm

  /**
   What the compiler makes of the next bytes: an instruction and its length, an exception, an operand read behind the
   end of the body, or no branch of its dispatch at all, which leaves it where it is for ever.
   */
  datatype Reading = Instruction(flat: Flat, length: nat) | Throws | Short | Halts

  function CompareOf(k: nat): W.Cmp
    requires k < 10
  {
    [W.Eq, W.Ne, W.LtS, W.LtU, W.GtS, W.GtU, W.LeS, W.LeU, W.GeS, W.GeU][k]
  }

  function ArithOf(k: nat): W.Arith
    requires k < 5
  {
    [W.Add, W.Sub, W.Mul, W.DivS, W.DivU][k]
  }

  /** An opcode without operands. */
  function Simple(b: W.Byte): Option<Flat> {
    if b == 0x01 then Some(Plain(W.Nop))
    else if b == 0x05 then Some(Else)
    else if b == 0x0F then Some(Plain(W.Return))
    else if b == 0x0B then Some(Stop)
    else if 0x46 <= b <= 0x4F then Some(Plain(W.Compare(false, CompareOf(b - 0x46))))
    else if 0x51 <= b <= 0x5A then Some(Plain(W.Compare(true, CompareOf(b - 0x51))))
    else if 0x6A <= b <= 0x6E then Some(Plain(W.Binary(false, ArithOf(b - 0x6A))))
    else if 0x7C <= b <= 0x80 then Some(Plain(W.Binary(true, ArithOf(b - 0x7C))))
    else None
  }

  /** The type byte after `if`. */
  function BlockOf(b: W.Byte): Option<W.Block> {
    if b == 0x40 then Some(W.Void) else if b == 0x7F then Some(W.Yields32) else if b == 0x7E then Some(W.Yields64)
        else None
  }

  /** An opcode with one byte of operand. */
  function WithOperand(b: W.Byte, x: W.Byte): Reading {
    if b == 0x04 then (if BlockOf(x).Some? then Instruction(If(BlockOf(x).value), 2) else Throws)
    else if b == 0x20 then Instruction(Plain(W.Get(x)), 2)
    else if b == 0x21 then Instruction(Plain(W.Put(x)), 2)
    else if b == 0x22 then Instruction(Plain(W.Tee(x)), 2)
    else if b == 0x41 then Instruction(Plain(W.Const(false, x)), 2)
    else if b == 0x42 then Instruction(Plain(W.Const(true, x)), 2)
    else Halts
  }

  predicate TakesOperand(b: W.Byte) { b == 0x04 || b == 0x20 || b == 0x21 || b == 0x22 || b == 0x41 || b == 0x42 }

  /** The bytes from `i` on; floating-point constants throw once their bytes are there. */
  function Read(bs: seq<W.Byte>, i: nat): Reading
    requires i < |bs|
  {
    var b := bs[i];
    if Simple(b).Some? then Instruction(Simple(b).value, 1)
    else if TakesOperand(b) then (if i + 1 < |bs| then WithOperand(b, bs[i + 1]) else Short)
    else if b == 0x43 || b == 0x44 then (if i + (if b == 0x43 then 4 else 7) < |bs| then Throws else Short)
    else Halts
  }

  /** The instructions of a body from byte `i` on, every byte taken once. */
  function Instructions(bs: seq<W.Byte>, i: nat): Option<seq<Flat>>
    requires i <= |bs|
    decreases |bs| - i
  {
    if i == |bs| then Some([])
    else
      ReadLength(bs, i);
      var r := Read(bs, i);
      if !r.Instruction? then None
      else
        var rest := Instructions(bs, i + r.length);
        if rest.Some? then Some([r.flat] + rest.value) else None
  }

  lemma ReadLength(bs: seq<W.Byte>, i: nat)
    requires i < |bs|
    ensures Read(bs, i).Instruction? ==> 0 < Read(bs, i).length && i + Read(bs, i).length <= |bs|
  {}

  /**
   Reading the bytes from `i` on comes to the end of the body or to an exception: every opcode before is in the dispatch
   and has its operand, and every `else` and `end` closes one of the `depth` open blocks or one opened meanwhile.
   */
  predicate Sensible(bs: seq<W.Byte>, i: nat, depth: nat)
    requires i <= |bs|
    decreases |bs| - i
  {
    i == |bs|
    || (ReadLength(bs, i);
        match Read(bs, i)
        case Instruction(f, n) =>
          && (f.Else? || f.Stop? ==> depth > 0)
          && Sensible(bs, i + n, if f.If? then depth + 1 else if f.Stop? then depth - 1 else depth)
        case Throws => true
        case _ => false)
  }

  /** What holds before an instruction is emitted, and what its emission leaves to do. */
  lemma NextInstruction(bs: seq<W.Byte>, i: nat, e: Emit, slots: seq<Codegen.Slot>, depth: nat)
    requires i < |bs| && Sensible(bs, i, depth) && !Read(bs, i).Throws? && |e.control| == depth
    ensures
      var r := Read(bs, i);
      && r.Instruction? && i + r.length <= |bs| && (r.flat.Else? || r.flat.Stop? ==> depth > 0)
      && (Instructions(bs, i).Some? <==> Instructions(bs, i + r.length).Some?)
      && (Step(e, r.flat, slots).None? && Instructions(bs, i).Some? ==>
          Steps(e, Instructions(bs, i).value, slots).None?)
      && (Step(e, r.flat, slots).Some? ==>
        && Sensible(bs, i + r.length, |Step(e, r.flat, slots).value.control|)
        && (Instructions(bs, i).Some? ==>
          Steps(e, Instructions(bs, i).value, slots) ==
              Steps(Step(e, r.flat, slots).value, Instructions(bs, i + r.length).value, slots)))
  {
    hide Read, Step;
    ReadLength(bs, i);
    var r := Read(bs, i);
    StepDepth(e, r.flat, slots);
    if Instructions(bs, i).Some? {
      var rest := Instructions(bs, i + r.length).value;
      assert ([r.flat] + rest)[1..] == rest;
    }
  }

  lemma StepDepth(e: Emit, f: Flat, slots: seq<Codegen.Slot>)
    ensures Step(e, f, slots).Some? ==>
      |Step(e, f, slots).value.control| == if f.If? then |e.control| + 1 else if f.Stop? then |e.control| - 1
          else |e.control|
  {}

  // Writing the bytes, as section 5.4 of WebAssembly Core Specification 1.0 has them for one-byte operands.

  /** An index as the raw byte that the compiler takes it for: LEB128 below 128. */
  function Index(i: nat): W.Byte { if i < 256 then i else 0 }

  function OpBytes(op: W.Op): seq<W.Byte> {
    match op
    case Nop => [0x01]
    case Return => [0x0F]
    case Get(i) => [0x20, Index(i)]
    case Put(i) => [0x21, Index(i)]
    case Tee(i) => [0x22, Index(i)]
    case Const(wide, byte) => [if wide then 0x42 else 0x41, byte]
    case Compare(wide, cmp) =>
      [(if wide then 0x51 else 0x46) + (match cmp case Eq => 0 case Ne => 1 case LtS => 2 case LtU => 3 case GtS => 4
                                        case GtU => 5 case LeS => 6 case LeU => 7 case GeS => 8 case GeU => 9)]
    case Binary(wide, arith) =>
      [(if wide then 0x7C else 0x6A) + (match arith case Add => 0 case Sub => 1 case Mul => 2 case DivS => 3
          case DivU => 4)]
  }

  function BlockByte(block: W.Block): W.Byte {
    match block
    case Void => 0x40
    case Yields32 => 0x7F
    case Yields64 => 0x7E
  }

  function FlatBytes(f: Flat): seq<W.Byte> {
    match f case Plain(op) => OpBytes(op) case If(block) => [0x04, BlockByte(block)] case Else => [0x05]
        case Stop => [0x0B]
  }

  function AllBytes(fs: seq<Flat>): seq<W.Byte>
    decreases |fs|
  {
    if fs == [] then [] else FlatBytes(fs[0]) + AllBytes(fs[1..])
  }

  /** Variable indices below 128 take one byte. */
  predicate OneByte(f: Flat) { VarBelow(f, 128) }

  /** Only variables below `n` are named. */
  predicate VarBelow(f: Flat, n: nat) { f.Plain? && (f.op.Get? || f.op.Put? || f.op.Tee?) ==> f.op.i < n }

  lemma ReadBack(bs: seq<W.Byte>, i: nat, f: Flat)
    requires VarBelow(f, 256) && i + |FlatBytes(f)| <= |bs| && bs[i..i + |FlatBytes(f)|] == FlatBytes(f)
    ensures i < |bs| && Read(bs, i) == Instruction(f, |FlatBytes(f)|)
  {
    var n := |FlatBytes(f)|;
    assert bs[i] == bs[i..i + n][0];
    if n == 2 {
      assert bs[i + 1] == bs[i..i + n][1];
    }
  }

  /** The bytes from `i` up to `k` are those of the instructions. */
  predicate Written(bs: seq<W.Byte>, i: nat, fs: seq<Flat>, k: nat) {
    i <= k <= |bs| && bs[i..k] == AllBytes(fs) && forall f | f in fs :: VarBelow(f, 256)
  }

  lemma WrittenStep(bs: seq<W.Byte>, i: nat, fs: seq<Flat>, k: nat)
    requires fs != [] && Written(bs, i, fs, k)
    ensures
      var n := |FlatBytes(fs[0])|;
      i < |bs| && Read(bs, i) == Instruction(fs[0], n) && i + n <= k && Written(bs, i + n, fs[1..], k)
  {
    hide Read, FlatBytes, VarBelow;
    var n := |FlatBytes(fs[0])|;
    assert bs[i..k] == FlatBytes(fs[0]) + AllBytes(fs[1..]);
    assert bs[i..i + n] == bs[i..k][..n] == FlatBytes(fs[0]);
    ReadBack(bs, i, fs[0]);
    assert bs[i + n..k] == bs[i..k][n..] == AllBytes(fs[1..]);
  }

  lemma WrittenNone(bs: seq<W.Byte>, i: nat, k: nat)
    requires Written(bs, i, [], k)
    ensures i == k
  {}

  /** Reading behind written instructions. */
  lemma {:induction false} Behind(bs: seq<W.Byte>, i: nat, fs: seq<Flat>, k: nat)
    requires Written(bs, i, fs, k)
    ensures Instructions(bs, i) ==
        if Instructions(bs, k).Some? then Some(fs + Instructions(bs, k).value) else None
    decreases |fs|
  {
    hide Read, FlatBytes, AllBytes, VarBelow;
    if fs == [] {
      WrittenNone(bs, i, k);
      assert Instructions(bs, k).Some? ==> fs + Instructions(bs, k).value == Instructions(bs, k).value;
    } else {
      var n := |FlatBytes(fs[0])|;
      WrittenStep(bs, i, fs, k);
      Behind(bs, i + n, fs[1..], k);
      ReadLength(bs, i);
      if Instructions(bs, k).Some? {
        assert [fs[0]] + (fs[1..] + Instructions(bs, k).value) == fs + Instructions(bs, k).value;
      }
    }
  }

  /** Reading undoes writing, for every sequence of instructions. */
  lemma InstructionsBack(bs: seq<W.Byte>, i: nat, fs: seq<Flat>)
    requires i <= |bs| && bs[i..] == AllBytes(fs) && forall f | f in fs :: VarBelow(f, 256)
    ensures Instructions(bs, i) == Some(fs)
  {
    hide VarBelow;
    assert bs[i..|bs|] == bs[i..];
    Behind(bs, i, fs, |bs|);
    assert fs + [] == fs;
  }

  /** What is read as an instruction is what it is written as. */
  lemma ReadWritten(bs: seq<W.Byte>, i: nat)
    requires i < |bs| && Read(bs, i).Instruction?
    ensures i + Read(bs, i).length <= |bs| && bs[i..i + Read(bs, i).length] == FlatBytes(Read(bs, i).flat)
    ensures VarBelow(Read(bs, i).flat, 256)
  {
    var n := Read(bs, i).length;
    assert bs[i..i + n] == if n == 1 then [bs[i]] else [bs[i], bs[i + 1]];
  }

  lemma {:induction false} OnlyWritten(bs: seq<W.Byte>, i: nat)
    requires i <= |bs| && Instructions(bs, i).Some?
    ensures bs[i..] == AllBytes(Instructions(bs, i).value)
    ensures forall f | f in Instructions(bs, i).value :: VarBelow(f, 256)
    decreases |bs| - i
  {
    hide Read, FlatBytes, VarBelow;
    if i < |bs| {
      ReadLength(bs, i);
      ReadWritten(bs, i);
      var r := Read(bs, i);
      OnlyWritten(bs, i + r.length);
      var rest := Instructions(bs, i + r.length).value;
      assert ([r.flat] + rest)[1..] == rest;
      assert bs[i..] == bs[i..i + r.length] + bs[i + r.length..];
    }
  }

  /** Reading accepts exactly what is written: bytes are read as those instructions that are written as these bytes. */
  lemma InstructionsExactly(bs: seq<W.Byte>, i: nat, fs: seq<Flat>)
    requires i <= |bs|
    ensures Instructions(bs, i) == Some(fs) <==> bs[i..] == AllBytes(fs) && forall f | f in fs :: VarBelow(f, 256)
  {
    hide VarBelow, AllBytes, Instructions;
    if Instructions(bs, i) == Some(fs) {
      OnlyWritten(bs, i);
    } else if bs[i..] == AllBytes(fs) && forall f | f in fs :: VarBelow(f, 256) {
      InstructionsBack(bs, i, fs);
    }
  }

  /** Well-nested written instructions leave reading sensible when it ends or throws behind them. */
  lemma {:induction false} SensibleBehind(bs: seq<W.Byte>, i: nat, fs: seq<Flat>, k: nat, depth: nat)
    requires Written(bs, i, fs, k) && Nested(fs, depth) && (k == |bs| || Read(bs, k).Throws?)
    ensures Sensible(bs, i, depth)
    decreases |fs|
  {
    hide Read, FlatBytes, VarBelow, Written;
    if fs == [] {
      WrittenNone(bs, i, k);
    } else {
      WrittenStep(bs, i, fs, k);
      SensibleBehind(bs, i + |FlatBytes(fs[0])|, fs[1..], k,
                     if fs[0].If? then depth + 1 else if fs[0].Stop? then depth - 1 else depth);
    }
  }

  /** The bytes of well-nested instructions read sensibly. */
  lemma SensibleBack(bs: seq<W.Byte>, i: nat, fs: seq<Flat>, depth: nat)
    requires i <= |bs| && bs[i..] == AllBytes(fs) && (forall f | f in fs :: VarBelow(f, 256)) && Nested(fs, depth)
    ensures Sensible(bs, i, depth)
  {
    hide VarBelow, AllBytes, Nested, Sensible;
    assert bs[i..|bs|] == bs[i..];
    SensibleBehind(bs, i, fs, |bs|, depth);
  }

  // What is refused.

  /**
   The exception that the pass over the bytes from `i` on ends with, in a function with `vars` variables: at the first
   instruction without support or on a variable that is not there.
   */
  function Refusal(bs: seq<W.Byte>, i: nat, vars: nat): Option<Error>
    requires i <= |bs|
    decreases |bs| - i
  {
    if i == |bs| then None
    else
      ReadLength(bs, i);
      match Read(bs, i)
      case Instruction(f, n) => if VarBelow(f, vars) then Refusal(bs, i + n, vars) else Some(BadIndex)
      case Throws => Some(Unsupported)
      case _ => None
  }

  lemma {:induction false} RefusalIs(bs: seq<W.Byte>, i: nat, vars: nat)
    requires i <= |bs|
    ensures Refusal(bs, i, vars) in {None, Some(Unsupported), Some(BadIndex)}
    decreases |bs| - i
  {
    hide Read, VarBelow;
    if i < |bs| {
      ReadLength(bs, i);
      if Read(bs, i).Instruction? {
        RefusalIs(bs, i + Read(bs, i).length, vars);
      }
    }
  }

  lemma {:induction false} RefusalBehind(bs: seq<W.Byte>, i: nat, fs: seq<Flat>, k: nat, vars: nat)
    requires Written(bs, i, fs, k) && forall f | f in fs :: VarBelow(f, vars)
    ensures Refusal(bs, i, vars) == Refusal(bs, k, vars)
    decreases |fs|
  {
    hide Read, FlatBytes, VarBelow, Written;
    if fs == [] {
      WrittenNone(bs, i, k);
    } else {
      WrittenStep(bs, i, fs, k);
      RefusalBehind(bs, i + |FlatBytes(fs[0])|, fs[1..], k, vars);
    }
  }

  /** At byte `k` is a floating-point constant with its operand, or an `if` with a type other than those of integers. */
  predicate WithoutSupport(bs: seq<W.Byte>, k: nat)
    requires k < |bs|
  {
    || (bs[k] == 0x43 && k + 4 < |bs|)
    || (bs[k] == 0x44 && k + 7 < |bs|)
    || (bs[k] == 0x04 && k + 1 < |bs| && bs[k + 1] != 0x40 && bs[k + 1] != 0x7F && bs[k + 1] != 0x7E)
  }

  /** That and nothing else throws. */
  lemma ThrowsExactly(bs: seq<W.Byte>, k: nat)
    requires k < |bs|
    ensures Read(bs, k).Throws? <==> WithoutSupport(bs, k)
  {}

  /** Behind any written instructions on variables that are there, an instruction without support ends the pass. */
  lemma UnsupportedRefused(bs: seq<W.Byte>, i: nat, fs: seq<Flat>, k: nat, depth: nat, vars: nat)
    requires Written(bs, i, fs, k) && k < |bs| && WithoutSupport(bs, k)
    ensures Instructions(bs, i) == None && (Nested(fs, depth) ==> Sensible(bs, i, depth))
    ensures (forall f | f in fs :: VarBelow(f, vars)) ==> Refusal(bs, i, vars) == Some(Unsupported)
  {
    hide Written, Read, WithoutSupport, VarBelow;
    ThrowsExactly(bs, k);
    Behind(bs, i, fs, k);
    if Nested(fs, depth) {
      SensibleBehind(bs, i, fs, k, depth);
    }
    if forall f | f in fs :: VarBelow(f, vars) {
      RefusalBehind(bs, i, fs, k, vars);
    }
  }

  /** So does an instruction on a variable that is not there. */
  lemma BadIndexRefused(bs: seq<W.Byte>, i: nat, fs: seq<Flat>, k: nat, vars: nat)
    requires Written(bs, i, fs, k) && k + 1 < |bs| && 0x20 <= bs[k] <= 0x22 && bs[k + 1] >= vars
    requires forall f | f in fs :: VarBelow(f, vars)
    ensures Refusal(bs, i, vars) == Some(BadIndex)
  {
    hide Written;
    RefusalBehind(bs, i, fs, k, vars);
  }

  /** The bytes of a structured body and its final `end` are read as its instructions, and sensibly. */
  lemma BodyBack(bs: seq<W.Byte>, i: nat, c: W.Code)
    requires i <= |bs| && bs[i..] == AllBytes(Flatten(c) + [Stop]) && forall f | f in Flatten(c) :: OneByte(f)
    ensures Sensible(bs, i, 1) && Instructions(bs, i) == Some(Flatten(c) + [Stop])
  {
    hide Sensible, Instructions, AllBytes;
    assert VarBelow(Stop, 256) && forall f | f in Flatten(c) :: OneByte(f) ==> VarBelow(f, 256);
    assert [Stop][1..] == [] && Nested([Stop][1..], 0);
    NestedBody(c, [Stop], 1);
    SensibleBack(bs, i, Flatten(c) + [Stop], 1);
    InstructionsBack(bs, i, Flatten(c) + [Stop]);
  }

  /**
   The signed number that one byte of LEB128 stands for (section 5.2.2 of WebAssembly Core Specification 1.0); a byte
   with its high bit set is not the last.
   */
  function Sleb1(b: W.Byte): Option<int> { if b < 64 then Some(b) else if b < 128 then Some(b - 128) else None }

  /** A constant's raw byte has the value that the standard gives it exactly when it is below 64. */
  lemma RawConstant(wide: bool, b: W.Byte)
    ensures Sleb1(b).Some? && Wrap(Sleb1(b).value, wide) == b <==> b < 64
  {}
}
