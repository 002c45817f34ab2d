/** The code that is executed: the words that load the arguments, then the function, wherever they are placed. */
module Image {
  import opened Numbers
  import opened Isa
  import opened Machine
  import opened Codegen
  import opened Layout
  import opened Simulation
  import opened Body
  import opened Stub
  import opened Function
  import W = Wasm

  /** Loading the arguments from number `i` on, each into the register of its number. */
  function ArgsCode(args: seq<W.Value>, i: nat): seq<Instr>
    requires i <= |args|
    decreases |args| - i
  {
    if i == |args| then [] else MovCode(args[i].wide, i, args[i].bits) + ArgsCode(args, i + 1)
  }

  function SetUpCode(): seq<Instr> { [MovReg(true, BUFFER, 0), MovReg(true, STACK, 1)] + [Movz(true, DEPTH, 0)] }

  function PrefixCode(args: seq<W.Value>): seq<Instr> { SetUpCode() + ArgsCode(args, 0) }

  // Relocation: code runs the same with other code before it.

  function Tail(p: Program, n: nat): Program
    requires n <= |p.code|
  {
    Program(p.base + 4 * n, p.code[n..])
  }

  lemma StepPart(p: Program, n: nat, s: State)
    requires n <= |p.code| && Step(Tail(p, n), s).Some?
    ensures Step(p, s) == Step(Tail(p, n), s)
  {
    var k := (s.pc - p.base - 4 * n) / 4;
    assert (s.pc - p.base) / 4 == k + n;
    assert p.code[n..][k] == p.code[n + k];
  }

  lemma {:induction false} RunPart(p: Program, n: nat, s: State, k: nat)
    requires n <= |p.code| && Run(Tail(p, n), s, k).Some?
    ensures Run(p, s, k) == Run(Tail(p, n), s, k)
    decreases k
  {
    hide Step, Tail;
    if k > 0 {
      StepPart(p, n, s);
      RunPart(p, n, Step(Tail(p, n), s).value, k - 1);
    }
  }

  /** Whatever a part of a program reaches, the program reaches. */
  lemma Relocated(p: Program, n: nat, s: State, t: State)
    requires n <= |p.code| && Reaches(Tail(p, n), s, t)
    ensures Reaches(p, s, t)
  {
    hide Step, Tail;
    var k: nat :| Run(Tail(p, n), s, k) == Some(t);
    RunPart(p, n, s, k);
  }

  // The arguments.

  lemma {:induction false} ArgsUnbranched(args: seq<W.Value>, i: nat)
    requires i <= |args|
    ensures forall j | j in ArgsCode(args, i) :: !IsBranch(j)
    decreases |args| - i
  {
    if i < |args| {
      ArgsUnbranched(args, i + 1);
    }
  }

  /** Registers `i` to `n` hold their arguments, the others what they held. */
  ghost predicate Given(regs: Regs, regs': Regs, args: seq<W.Value>, i: nat) {
    && |args| <= 19 && (forall j :: i <= j < |args| ==> regs'[j] == args[j].bits)
    && forall r :: 0 <= r < 31 && !(i <= r < |args|) ==> regs'[r] == regs[r]
  }

  /** For every list of arguments, each word sequence leaves its argument's bit pattern in its own register. */
  lemma {:induction false} ExecArgs(s: State, args: seq<W.Value>, i: nat) returns (t: State)
    requires i <= |args| <= 19
    ensures Exec(ArgsCode(args, i), s) == Some(t) && t == s.(regs := t.regs, pc := s.pc + 4 * |ArgsCode(args, i)|)
    ensures Given(s.regs, t.regs, args, i)
    decreases |args| - i
  {
    hide Exec;
    if i == |args| {
      t := s;
      ExecNone(s);
    } else {
      var wide, v := args[i].wide, args[i].bits;
      var u := ExecMov(wide, i, v, s);
      WrapValue(args[i]);
      t := ExecArgs(u, args, i + 1);
      Chain(MovCode(wide, i, v), ArgsCode(args, i + 1), s, u, t);
    }
  }

  lemma ExecNone(s: State)
    ensures Exec([], s) == Some(s)
  {}

  lemma WrapValue(v: W.Value)
    ensures Wrap(v.bits, v.wide) == v.bits
  {}

  lemma ExecSetUp(s: State) returns (t: State)
    ensures Exec(SetUpCode(), s) == Some(t)
    ensures t == s.(regs := s.regs[BUFFER := s.regs[0]][STACK := s.regs[1]][DEPTH := 0], pc := s.pc + 12)
  {
    hide Next;
    var a, b := [MovReg(true, BUFFER, 0), MovReg(true, STACK, 1)], [Movz(true, DEPTH, 0)];
    var u := s.(regs := s.regs[BUFFER := s.regs[0]], pc := s.pc + 4);
    var v := u.(regs := u.regs[STACK := s.regs[1]], pc := u.pc + 4);
    t := v.(regs := v.regs[DEPTH := 0], pc := v.pc + 4);
    NextMovReg(s, BUFFER, 0);
    NextMovReg(u, STACK, 1);
    NextMovZero(v, true, DEPTH, 0);
    ExecTwoTo(MovReg(true, BUFFER, 0), MovReg(true, STACK, 1), s, u, v);
    ExecOne(Movz(true, DEPTH, 0), v);
    ExecAppend(a, b, s);
  }

  /** The words that load the arguments set up a call of the function. */
  lemma ExecPrefix(s: State, args: seq<W.Value>) returns (t: State)
    requires |args| <= 19
    ensures Exec(PrefixCode(args), s) == Some(t) && t == s.(regs := t.regs, pc := s.pc + 4 * |PrefixCode(args)|)
    ensures Given(s.regs[BUFFER := s.regs[0]][STACK := s.regs[1]][DEPTH := 0], t.regs, args, 0)
  {
    hide Exec;
    var u := ExecSetUp(s);
    t := ExecArgs(u, args, 0);
    Chain(SetUpCode(), ArgsCode(args, 0), s, u, t);
  }

  // The call.

  /** The program at `base` is the image; it is called with the buffer in x0 and the operand stack in x1. */
  ghost predicate Called(p: Program, x: Ctx, fn: Fn, normal: int, args: seq<W.Value>, s: State) {
    var prefix := PrefixCode(args);
    && p.code == prefix + FnCode(fn, normal) && 0 <= p.base && p.base + 4 * |p.code| < TWO64
    && x.p == Program(p.base + 4 * |prefix|, FnCode(fn, normal))
    && x.slots == Slots(fn) && x.extent == Extent(fn) && Separate(x) && 8 <= x.wst
    && |fn.params| <= 19 && Frame(fn) < 4096 && |fn.results| <= 1
    && |args| == |fn.params| && (forall i :: 0 <= i < |args| ==> args[i].wide == fn.params[i])
    && s.pc == p.base && s.sp == x.fp + Frame(fn) && s.regs[0] == x.buf && s.regs[1] == x.wst
  }

  lemma CalledEnters(p: Program, x: Ctx, fn: Fn, normal: int, args: seq<W.Value>, s: State, t: State)
    requires Called(p, x, fn, normal, args, s) && t == s.(regs := t.regs, pc := s.pc + 4 * |PrefixCode(args)|)
    requires Given(s.regs[BUFFER := s.regs[0]][STACK := s.regs[1]][DEPTH := 0], t.regs, args, 0)
    ensures Entered(x, fn, normal, args, t) && Tail(p, |PrefixCode(args)|) == x.p
    ensures forall r :: 22 <= r < 31 ==> t.regs[r] == s.regs[r]
  {
    hide PrefixCode, FnCode, Separate;
  }

  lemma RunPrefix(p: Program, x: Ctx, fn: Fn, normal: int, args: seq<W.Value>, s: State) returns (t: State)
    requires Called(p, x, fn, normal, args, s)
    ensures Reaches(p, s, t) && Entered(x, fn, normal, args, t) && Tail(p, |PrefixCode(args)|) == x.p
        && |PrefixCode(args)| <= |p.code|
    ensures t.sp == s.sp && t.mem == s.mem && forall r :: 22 <= r < 31 ==> t.regs[r] == s.regs[r]
  {
    hide FnCode, Separate, Exec, ArgsCode, Entered, Given;
    ArgsUnbranched(args, 0);
    CodeAtWhole(p);
    CodeAtSplit(p, 0, PrefixCode(args), FnCode(fn, normal));
    t := ExecPrefix(s, args);
    ReachesExec(p, 0, PrefixCode(args), s);
    CalledEnters(p, x, fn, normal, args, s, t);
  }

  /** Executing the image calls the function: `Function.CallCorrect`, with the arguments loaded by the code itself. */
  lemma ImageCorrect(p: Program, x: Ctx, fn: Fn, normal: int, args: seq<W.Value>, s: State) returns (t: State)
    requires Called(p, x, fn, normal, args, s) && OwnDiv(fn.body, BodyAt(fn), Slots(fn), normal)
    requires Regular(W.Jit(fn.body, Start(fn, args)))
    ensures Reaches(p, s, t) && Back(x, s, t) && Tells(x, fn, W.Jit(fn.body, Start(fn, args)), t)
  {
    hide *;
    var u := RunPrefix(p, x, fn, normal, args, s);
    t := CallCorrect(x, fn, normal, args, u);
    Relocated(p, |PrefixCode(args)|, u, t);
    ReachesTrans(p, s, u, t);
    BackFrom(x, s, u, t);
  }

  lemma BackFrom(x: Ctx, s: State, u: State, t: State)
    requires Back(x, u, t) && u.sp == s.sp && u.mem == s.mem && forall r :: 22 <= r < 31 ==> u.regs[r] == s.regs[r]
    ensures Back(x, s, t)
  {}
}
