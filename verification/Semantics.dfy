/**
  What an Eru program means, independently of how it is lowered: every
  variable, parameters included, has a cell of its own; environments are
  stacks of scopes; only calls consume fuel, since the language has no loops.
 */
module Semantics {
  import opened Wrappers
  import opened Ast
  import opened Ir
  import opened Lowering

  // A cell remembers the pointer depth it was declared at.
  datatype Cell = Cell(depth: nat, val: Val)

  type Mem = seq<Cell>

  type Env = seq<map<string, nat>>

  // `Wrong` is every error that static checking should exclude.
  datatype Outcome<+T> = Ok(value: T) | OutOfFuel | Uninitialised | External | Wrong {
    predicate IsFailure() { !Ok? }

    function PropagateFailure<U>(): Outcome<U>
      requires !Ok?
    {
      match this
      case OutOfFuel => OutOfFuel
      case Uninitialised => Uninitialised
      case External => External
      case Wrong => Wrong
    }

    function Extract(): T
      requires Ok?
    {
      value
    }
  }

  datatype Definition = Definition(parameters: seq<Variable>, typ: Type, body: Block)

  datatype Program = Program(functions: map<string, Definition>, signatures: Signatures, globals: map<string, nat>)

  datatype Flow = Next(env: Env, mem: Mem) | Returned(result: Val, mem: Mem)

  function Find(env: Env, mem: Mem, name: string): (r: Outcome<nat>)
    ensures r.Ok? ==> r.value < |mem| && LookupIn<nat>(env, name) == Some(r.value)
  {
    match LookupIn<nat>(env, name)
    case None => Wrong
    case Some(l) => if l < |mem| then Ok(l) else Wrong
  }

  function Read(mem: Mem, l: nat): Outcome<Val>
    requires l < |mem|
  {
    if mem[l].val == Undef then Uninitialised else Ok(mem[l].val)
  }

  // The cell reached from l by following k pointers.
  function Chase(mem: Mem, l: nat, k: nat): (r: Outcome<nat>)
    requires l < |mem|
    ensures r.Ok? ==> r.value < |mem|
    decreases k
  {
    if k == 0 then Ok(l)
    else
      var v :- Read(mem, l);
      if v.PtrV? && v.loc < |mem| then Chase(mem, v.loc, k - 1) else Wrong
  }

  // A variable used as an operand: its value, its address, or the value
  // `steps` pointers away.
  function EvalUse(mem: Mem, l: nat, indirection: Indirection, steps: nat): Outcome<Val>
    requires l < |mem|
  {
    match indirection
    case Plain => Read(mem, l)
    case GetAddress => Ok(PtrV(l))
    case GetValue => var c :- Chase(mem, l, steps); Read(mem, c)
  }

  function EvalVariable(env: Env, mem: Mem, name: string, indirection: Indirection, steps: nat): Outcome<Val> {
    var l :- Find(env, mem, name);
    EvalUse(mem, l, indirection, steps)
  }

  function EvalOperand(P: Program, fuel: nat, env: Env, mem: Mem, o: Operand): Outcome<(Val, Mem)>
    decreases fuel, o, 1
  {
    match o
    case IntegerLiteral(digits) =>
      (match Stoi(digits) case None => Wrong case Some(n) => Ok((IntV(n), mem)))
    case StringLiteral(_) => Wrong
    case CallOperand(call) => EvalCall(P, fuel, env, mem, call)
    case Identifier(name, indirection, steps) =>
      var v :- EvalVariable(env, mem, name, indirection, steps);
      Ok((v, mem))
  }

  function EvalUnit(P: Program, fuel: nat, env: Env, mem: Mem, total: Option<Val>, u: Unit): Outcome<(Val, Mem)>
    decreases fuel, u, 2
  {
    var (v, mem1) :- EvalOperand(P, fuel, env, mem, u.operand);
    var r :- Apply(total, u.operation, v);
    Ok((r, mem1))
  }

  // Addition and subtraction wrap around at 32 bits.
  function Apply(total: Option<Val>, operation: Option<Operator>, v: Val): Outcome<Val> {
    if total == None then Ok(v)
    else if !total.value.IntV? || !v.IntV? then Wrong
    else if operation == Some(Plus) then Ok(IntV(Wrap32(total.value.n + v.n)))
    else if operation == Some(Minus) then Ok(IntV(Wrap32(total.value.n - v.n)))
    else Wrong
  }

  function EvalUnits(P: Program, fuel: nat, env: Env, mem: Mem, total: Option<Val>, units: seq<Unit>): Outcome<(Val, Mem)>
    decreases fuel, units, 0
  {
    if units == [] then
      (match total case None => Wrong case Some(v) => Ok((v, mem)))
    else
      var (v, mem1) :- EvalUnit(P, fuel, env, mem, total, units[0]);
      EvalUnits(P, fuel, env, mem1, Some(v), units[1..])
  }

  function EvalExpression(P: Program, fuel: nat, env: Env, mem: Mem, e: Expression): Outcome<(Val, Mem)>
    decreases fuel, e, 1
  {
    EvalUnits(P, fuel, env, mem, None, e.units)
  }

  function EvalArguments(P: Program, fuel: nat, env: Env, mem: Mem, es: seq<Expression>): (r: Outcome<(seq<Val>, Mem)>)
    ensures r.Ok? ==> |r.value.0| == |es|
    decreases fuel, es, 0
  {
    if es == [] then Ok(([], mem))
    else
      var (v, mem1) :- EvalExpression(P, fuel, env, mem, es[0]);
      var (vs, mem2) :- EvalArguments(P, fuel, env, mem1, es[1..]);
      Ok(([v] + vs, mem2))
  }

  function EvalCall(P: Program, fuel: nat, env: Env, mem: Mem, call: Call): Outcome<(Val, Mem)>
    decreases fuel, call, 1
  {
    if call.name !in P.signatures then Wrong
    else
      var (vs, mem1) :- EvalArguments(P, fuel, env, mem, call.parameters);
      if call.name !in P.functions then External
      else if fuel == 0 then OutOfFuel
      else Invoke(P, fuel - 1, call.name, vs, mem1)
  }

  // One cell per parameter, in order.
  function ParameterCells(ps: seq<Variable>, vs: seq<Val>): (r: Mem)
    requires |ps| == |vs|
    ensures |r| == |ps|
    ensures forall i :: 0 <= i < |ps| ==> r[i] == Cell(ps[i].typ.pointerDepth, vs[i])
  {
    seq(|ps|, i requires 0 <= i < |ps| => Cell(ps[i].typ.pointerDepth, vs[i]))
  }

  function Invoke(P: Program, fuel: nat, name: string, vs: seq<Val>, mem: Mem): Outcome<(Val, Mem)>
    requires name in P.functions
    decreases fuel, P.functions[name].body, 3
  {
    var d := P.functions[name];
    if |vs| != |d.parameters| then Wrong
    else
      var flow :- ExecBlock(P, fuel, [P.globals], mem + ParameterCells(d.parameters, vs),
                            ParameterNames(d.parameters, |mem|), d.body);
      if flow.Returned? then Ok((flow.result, flow.mem)) else Wrong
  }

  // The target's place is found before the expression is evaluated.
  function ExecAssignment(P: Program, fuel: nat, env: Env, mem: Mem, target: string, steps: nat, e: Expression): Outcome<Flow>
    decreases fuel, e, 2
  {
    var l :- Find(env, mem, target);
    var place :- Chase(mem, l, steps);
    var (v, mem1) :- EvalExpression(P, fuel, env, mem, e);
    if place < |mem1| then Ok(Next(env, mem1[place := mem1[place].(val := v)])) else Wrong
  }

  function ExecStatement(P: Program, fuel: nat, env: Env, mem: Mem, s: Statement): Outcome<Flow>
    decreases fuel, s, 1
  {
    match s
    case Declaration(v) => Ok(Next(Declare(env, v.name, |mem|), mem + [Cell(v.typ.pointerDepth, Undef)]))
    case Assignment(target, steps, e) => ExecAssignment(P, fuel, env, mem, target, steps, e)
    case CallStatement(call) =>
      var (v, mem1) :- EvalCall(P, fuel, env, mem, call);
      Ok(Next(env, mem1))
    case Conditional(chain) => ExecChain(P, fuel, env, mem, chain)
  }

  function ExecStatements(P: Program, fuel: nat, env: Env, mem: Mem, ss: seq<Statement>): Outcome<Flow>
    decreases fuel, ss, 0
  {
    if ss == [] then Ok(Next(env, mem))
    else
      var flow :- ExecStatement(P, fuel, env, mem, ss[0]);
      if flow.Returned? then Ok(flow) else ExecStatements(P, fuel, flow.env, flow.mem, ss[1..])
  }

  // The first branch whose condition is not zero runs, and no other.
  function ExecChain(P: Program, fuel: nat, env: Env, mem: Mem, chain: seq<Branch>): Outcome<Flow>
    decreases fuel, chain, 0
  {
    if chain == [] then Ok(Next(env, mem))
    else
      var (taken, mem1) :- EvalCondition(P, fuel, env, mem, chain[0]);
      if taken then ExecBranch(P, fuel, env, mem1, chain[0])
      else ExecChain(P, fuel, env, mem1, chain[1..])
  }

  function EvalCondition(P: Program, fuel: nat, env: Env, mem: Mem, b: Branch): Outcome<(bool, Mem)>
    decreases fuel, b, 2
  {
    match b.condition
    case None => Ok((true, mem))
    case Some(e) =>
      var (v, mem1) :- EvalExpression(P, fuel, env, mem, e);
      if v.IntV? then Ok((v.n != 0, mem1)) else Wrong
  }

  function ExecBranch(P: Program, fuel: nat, env: Env, mem: Mem, b: Branch): Outcome<Flow>
    decreases fuel, b, 2
  {
    ExecBlock(P, fuel, env, mem, map[], b.block)
  }

  function ExecBlock(P: Program, fuel: nat, env: Env, mem: Mem, names: map<string, nat>, b: Block): Outcome<Flow>
    decreases fuel, b, 1
  {
    var flow :- ExecStatements(P, fuel, [names] + env, mem, b.statements);
    if flow.Returned? then Ok(flow) else ExecReturn(P, fuel, flow.env, flow.mem, b)
  }

  function ExecReturn(P: Program, fuel: nat, env: Env, mem: Mem, b: Block): Outcome<Flow>
    decreases fuel, b, 0
  {
    match b.returnValue
    case None => if env == [] then Wrong else Ok(Next(env[1..], mem))
    case Some(e) =>
      var (v, mem1) :- EvalExpression(P, fuel, env, mem, e);
      Ok(Returned(v, mem1))
  }
}
