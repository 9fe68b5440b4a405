/**
  The fragment of LLVM IR that the generator emits, and a small-step machine
  for it: a stack of frames, one register file per frame, one memory. Cells
  are never freed. Every use of an unset register, every load of an
  uninitialised cell and every load at the wrong type is stuck.
 */
module Ir {
  import opened Wrappers

  datatype Ty = I1 | I8 | I32 | Ptr | Struct

  // Run-time values, shared with the source semantics.
  datatype Val = Undef | IntV(n: int) | PtrV(loc: nat)

  // An instruction is named by its id, as an llvm::Value is by its address.
  datatype Value =
    | Const(typ: Ty, n: int)
    | Arg(index: nat, typ: Ty)
    | Reg(id: nat, typ: Ty)
    | Global(name: string)
  {
    function Type(): Ty { if Global? then Ptr else typ }
  }

  datatype Instruction =
    | Alloca(id: nat, typ: Ty)
    | Load(id: nat, typ: Ty, pointer: Value)
    | Store(value: Value, pointer: Value)
    | Add(id: nat, left: Value, right: Value)
    | Sub(id: nat, left: Value, right: Value)
    | ICmpNe(id: nat, left: Value, right: Value)
    | IntToPtr(id: nat, value: Value)
    | CallFunction(id: nat, callee: string, arguments: seq<Value>)
    | Ret(value: Value)
    | Br(target: nat)
    | CondBr(condition: Value, ifTrue: nat, ifFalse: nat)
  {
    predicate IsTerminator() { Ret? || Br? || CondBr? }

    predicate HasResult() { !IsTerminator() && !Store? }
  }

  type BasicBlock = seq<Instruction>

  datatype Module = Module(functions: map<string, seq<BasicBlock>>, globals: map<string, nat>)

  datatype Frame = Frame(name: string, block: nat, pc: nat, args: seq<Val>, regs: map<nat, Val>) {
    function Set(id: nat, v: Val): Frame { this.(pc := pc + 1, regs := regs[id := v]) }
    function Next(): Frame { this.(pc := pc + 1) }
    function Jump(target: nat): Frame { this.(block := target, pc := 0) }
  }

  datatype Config =
    | Running(top: Frame, rest: seq<Frame>, mem: seq<Val>)
    | Halted(result: Val, mem: seq<Val>)
    | Stuck

  // Two's complement wrap-around to 32 bits.
  function Wrap32(n: int): int {
    (n + 0x8000_0000) % 0x1_0000_0000 - 0x8000_0000
  }

  function ValueOf(m: Module, fr: Frame, v: Value): Val {
    match v
    case Const(_, n) => IntV(n)
    case Arg(i, _) => if i < |fr.args| then fr.args[i] else Undef
    case Reg(id, _) => if id in fr.regs then fr.regs[id] else Undef
    case Global(name) => if name in m.globals then PtrV(m.globals[name]) else Undef
  }

  function ValuesOf(m: Module, fr: Frame, vs: seq<Value>): (r: seq<Val>)
    ensures |r| == |vs|
    ensures forall i :: 0 <= i < |vs| ==> r[i] == ValueOf(m, fr, vs[i])
  {
    seq(|vs|, i requires 0 <= i < |vs| => ValueOf(m, fr, vs[i]))
  }

  predicate Fits(ty: Ty, v: Val) {
    match v
    case Undef => false
    case IntV(_) => ty.I32?
    case PtrV(_) => ty.Ptr?
  }

  function InstructionAt(m: Module, fr: Frame): Option<Instruction> {
    if fr.name in m.functions && fr.block < |m.functions[fr.name]| && fr.pc < |m.functions[fr.name][fr.block]|
    then Some(m.functions[fr.name][fr.block][fr.pc])
    else None
  }

  // What returning v to the suspended frames gives: the innermost of them is
  // still at its call.
  function Return(m: Module, rest: seq<Frame>, v: Val, mem: seq<Val>): Config {
    if rest == [] then Halted(v, mem)
    else
      match InstructionAt(m, rest[0])
      case Some(CallFunction(id, _, _)) => Running(rest[0].Set(id, v), rest[1..], mem)
      case _ => Stuck
  }

  function Arith(fr: Frame, rest: seq<Frame>, mem: seq<Val>, id: nat, a: Val, b: Val, op: (int, int) -> int): Config {
    if a.IntV? && b.IntV? then Running(fr.Set(id, IntV(op(a.n, b.n))), rest, mem) else Stuck
  }

  function Step(m: Module, c: Config): Config {
    match c
    case Halted(_, _) => c
    case Stuck => c
    case Running(fr, rest, mem) =>
      match InstructionAt(m, fr)
      case None => Stuck
      case Some(i) => Execute(m, fr, rest, mem, i)
  }

  function Execute(m: Module, fr: Frame, rest: seq<Frame>, mem: seq<Val>, i: Instruction): Config {
    match i
    case Alloca(id, _) => Running(fr.Set(id, PtrV(|mem|)), rest, mem + [Undef])
    case Load(id, ty, p) =>
      var a := ValueOf(m, fr, p);
      if a.PtrV? && a.loc < |mem| && Fits(ty, mem[a.loc])
      then Running(fr.Set(id, mem[a.loc]), rest, mem)
      else Stuck
    case Store(value, p) =>
      var v, a := ValueOf(m, fr, value), ValueOf(m, fr, p);
      if v != Undef && a.PtrV? && a.loc < |mem|
      then Running(fr.Next(), rest, mem[a.loc := v])
      else Stuck
    case Add(id, l, r) =>
      Arith(fr, rest, mem, id, ValueOf(m, fr, l), ValueOf(m, fr, r), (x: int, y: int) => Wrap32(x + y))
    case Sub(id, l, r) =>
      Arith(fr, rest, mem, id, ValueOf(m, fr, l), ValueOf(m, fr, r), (x: int, y: int) => Wrap32(x - y))
    case ICmpNe(id, l, r) =>
      Arith(fr, rest, mem, id, ValueOf(m, fr, l), ValueOf(m, fr, r), (x: int, y: int) => if x != y then 1 else 0)
    case IntToPtr(_, _) => Stuck // a pointer made from an integer points nowhere
    case CallFunction(_, callee, arguments) =>
      if callee in m.functions && Undef !in ValuesOf(m, fr, arguments)
      then Running(Frame(callee, 0, 0, ValuesOf(m, fr, arguments), map[]), [fr] + rest, mem)
      else Stuck
    case Ret(value) =>
      var v := ValueOf(m, fr, value);
      if v != Undef then Return(m, rest, v, mem) else Stuck
    case Br(target) => Running(fr.Jump(target), rest, mem)
    case CondBr(condition, t, e) =>
      var v := ValueOf(m, fr, condition);
      if v.IntV? then Running(fr.Jump(if v.n != 0 then t else e), rest, mem) else Stuck
  }

  function StepN(m: Module, n: nat, c: Config): Config {
    if n == 0 then c else StepN(m, n - 1, Step(m, c))
  }

  ghost predicate Reaches(m: Module, c: Config, d: Config) {
    exists n: nat :: StepN(m, n, c) == d
  }

  lemma {:induction false} StepNSum(m: Module, a: nat, b: nat, c: Config)
    ensures StepN(m, a + b, c) == StepN(m, b, StepN(m, a, c))
    decreases a
  {
    if a != 0 {
      StepNSum(m, a - 1, b, Step(m, c));
    }
  }

  lemma {:induction false} ReachesRefl(m: Module, c: Config)
    ensures Reaches(m, c, c)
  {
    assert StepN(m, 0, c) == c;
  }

  lemma {:induction false} ReachesStep(m: Module, c: Config)
    ensures Reaches(m, c, Step(m, c))
  {
    assert StepN(m, 1, c) == StepN(m, 0, Step(m, c)) == Step(m, c);
  }

  lemma {:induction false} ReachesTrans(m: Module, c: Config, d: Config, e: Config)
    requires Reaches(m, c, d) && Reaches(m, d, e)
    ensures Reaches(m, c, e)
  {
    var a: nat :| StepN(m, a, c) == d;
    var b: nat :| StepN(m, b, d) == e;
    StepNSum(m, a, b, c);
  }
}
