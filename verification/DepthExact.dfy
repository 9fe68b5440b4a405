/**
  Depth-exact programs: every type is INT at some pointer depth, sums and
  conditions have depth 0, and targets, arguments and returns meet expressions
  of their own depth. The analyzer asks for less (see Analyzer.dfy); this is
  what makes evaluation safe.
 */
module DepthExact {
  import opened Wrappers
  import opened Ast
  import opened Ir
  import opened Lowering
  import opened Semantics

  // The pointer depth of each visible name.
  type Depths = seq<map<string, nat>>

  predicate IntTyped(t: Type) {
    t.dataType == Int && (t.isPointer <==> t.pointerDepth > 0)
  }

  function DepthOfOperand(F: Signatures, T: Depths, o: Operand): Option<nat>
    decreases o, 1
  {
    match o
    case IntegerLiteral(digits) => if Stoi(digits).Some? then Some(0) else None
    case StringLiteral(_) => None
    case CallOperand(call) => DepthOfCall(F, T, call)
    case Identifier(name, indirection, steps) =>
      var d :- LookupIn<nat>(T, name);
      DepthOfUse(d, indirection, steps)
  }

  function DepthOfUse(d: nat, indirection: Indirection, steps: nat): Option<nat> {
    match indirection
    case Plain => if steps == 0 then Some(d) else None
    case GetAddress => if steps == 1 then Some(d + 1) else None
    case GetValue => if 0 < steps <= d then Some(d - steps) else None
  }

  function DepthOfCall(F: Signatures, T: Depths, call: Call): Option<nat>
    decreases call, 1
  {
    if call.name in F && ArgumentsFit(F, T, F[call.name].parameters, call.parameters)
    then Some(F[call.name].typ.pointerDepth)
    else None
  }

  predicate ArgumentsFit(F: Signatures, T: Depths, ps: seq<Variable>, es: seq<Expression>)
    decreases es, 0
  {
    && |ps| == |es|
    && (es == [] || (DepthOfExpression(F, T, es[0]) == Some(ps[0].typ.pointerDepth) && ArgumentsFit(F, T, ps[1..], es[1..])))
  }

  function DepthOfUnit(F: Signatures, T: Depths, total: Option<nat>, u: Unit): Option<nat>
    decreases u, 2
  {
    var d :- DepthOfOperand(F, T, u.operand);
    if total == None then Some(d)
    else if total == Some(0) && d == 0 && (u.operation == Some(Plus) || u.operation == Some(Minus)) then Some(0)
    else None
  }

  function DepthOfUnits(F: Signatures, T: Depths, total: Option<nat>, units: seq<Unit>): Option<nat>
    decreases units, 0
  {
    if units == [] then total
    else
      var d :- DepthOfUnit(F, T, total, units[0]);
      DepthOfUnits(F, T, Some(d), units[1..])
  }

  function DepthOfExpression(F: Signatures, T: Depths, e: Expression): Option<nat>
    decreases e, 1
  {
    DepthOfUnits(F, T, None, e.units)
  }

  // The annotation of a pointer expression implies a pointer.
  predicate AssignmentFits(F: Signatures, T: Depths, target: string, steps: nat, e: Expression)
  {
    var d := LookupIn<nat>(T, target);
    && d.Some? && steps <= d.value
    && DepthOfExpression(F, T, e) == Some(d.value - steps)
    && (e.evaluatedType.isPointer ==> d.value > steps)
  }

  function DepthStatement(F: Signatures, T: Depths, ret: nat, s: Statement): Option<Depths>
    decreases s, 1
  {
    match s
    case Declaration(v) =>
      if IntTyped(v.typ) && T != [] && v.name !in T[0] then Some(Declare(T, v.name, v.typ.pointerDepth)) else None
    case Assignment(target, steps, e) => if AssignmentFits(F, T, target, steps, e) then Some(T) else None
    case CallStatement(call) => if DepthOfCall(F, T, call).Some? then Some(T) else None
    case Conditional(chain) => if ChainFits(F, T, ret, chain) then Some(T) else None
  }

  function DepthStatements(F: Signatures, T: Depths, ret: nat, ss: seq<Statement>): Option<Depths>
    decreases ss, 0
  {
    if ss == [] then Some(T)
    else
      var T1 :- DepthStatement(F, T, ret, ss[0]);
      DepthStatements(F, T1, ret, ss[1..])
  }

  predicate ChainFits(F: Signatures, T: Depths, ret: nat, chain: seq<Branch>)
    decreases chain, 0
  {
    chain == [] || (BranchFits(F, T, ret, chain[0]) && ChainFits(F, T, ret, chain[1..]))
  }

  predicate BranchFits(F: Signatures, T: Depths, ret: nat, b: Branch)
    decreases b, 2
  {
    && (b.condition.Some? ==> DepthOfExpression(F, T, b.condition.value) == Some(0))
    && BlockFits(F, T, map[], ret, b.block)
  }

  predicate BlockFits(F: Signatures, T: Depths, names: map<string, nat>, ret: nat, b: Block)
    decreases b, 1
  {
    var T1 := DepthStatements(F, [names] + T, ret, b.statements);
    && T1.Some?
    && (b.returnValue.Some? ==> DepthOfExpression(F, T1.value, b.returnValue.value) == Some(ret))
  }

  ghost predicate Distinct(ps: seq<Variable>) {
    forall i, j :: 0 <= i < j < |ps| ==> ps[i].name != ps[j].name
  }

  function ParameterDepths(ps: seq<Variable>): map<string, nat> {
    var names := ParameterNames(ps, 0);
    map n | n in names :: ps[names[n]].typ.pointerDepth
  }

  function GlobalDepths(globals: map<string, nat>): map<string, nat> {
    map n | n in globals :: 0
  }

  ghost predicate DefinitionFits(F: Signatures, globals: map<string, nat>, d: Definition) {
    && Distinct(d.parameters)
    && (forall p :: p in d.parameters ==> IntTyped(p.typ))
    && IntTyped(d.typ)
    && d.body.returnValue.Some?
    && BlockFits(F, [GlobalDepths(globals)], ParameterDepths(d.parameters), d.typ.pointerDepth, d.body)
  }

  ghost predicate SignatureExact(P: Program, n: string) {
    n in P.signatures ==> IntTyped(P.signatures[n].typ)
  }

  ghost predicate DefinitionExact(P: Program, n: string) {
    n in P.functions ==>
      && n in P.signatures
      && P.signatures[n] == Signature(P.functions[n].parameters, P.functions[n].typ)
      && DefinitionFits(P.signatures, P.globals, P.functions[n])
  }

  ghost predicate Exact(P: Program) {
    forall n :: SignatureExact(P, n) && DefinitionExact(P, n)
  }
}
