/**
  What the analyzer (lib/Analyzer) accepts, as functions: each takes the part
  of the tree that the parser hands over and gives it back with the types and
  step counts that the analyzer writes into it, or nothing when it is refused.
  They are put together in the order in which the parser calls the analyzer.
 */
module Analysis {
  import opened Wrappers
  import opened Ast
  import opened Lowering
  import opened Items

  // The type of each visible name, innermost scope first.
  type Types = seq<map<string, Type>>

  const PLAIN_INT := Type(Int, false, 0)

  predicate IntegerAllowed(expected: Type) {
    expected.dataType == Int || expected == Type(UInt32, false, 0) || expected == Type(SInt32, false, 0)
  }

  predicate StringAllowed(expected: Type) {
    expected == Type(Char, false, 0) || expected == Type(Str, false, 0)
  }

  // The type of an identifier under its net indirection.
  function IndirectionType(indirection: Indirection, steps: nat, t: Type): Option<Type> {
    match indirection
    case Plain => Some(t)
    case GetAddress => if steps == 1 then Some(Type(Int, true, t.pointerDepth + 1)) else None
    case GetValue =>
      if !t.isPointer || t.pointerDepth < steps then None
      else
        var left := t.pointerDepth - steps;
        Some(Type(if left != 0 then Int else t.dataType, left != 0, left))
  }

  // A later identifier in an expression: a loose comparison.
  predicate IdentifierFits(steps: nat, t: Type, evaluated: Type) {
    if t.isPointer && steps != 0
    then (t.pointerDepth == steps || steps == evaluated.pointerDepth) && t.dataType == evaluated.dataType
    else t == evaluated
  }

  // The type after one more unit; None before the first one.
  function UnitType(F: Signatures, T: Types, evaluated: Option<Type>, u: Unit): Option<Type> {
    if evaluated.Some? && u.operation.None? then None
    else
      match u.operand
      case IntegerLiteral(digits) =>
        var t := evaluated.GetOr(PLAIN_INT);
        if IntegerAllowed(t) && digits != [] then Some(t) else None
      case StringLiteral(_) =>
        var t := evaluated.GetOr(Type(Str, false, 0));
        if StringAllowed(t) then Some(t) else None
      case Identifier(name, indirection, steps) =>
        var t :- LookupIn<Type>(T, name);
        if evaluated.None? then IndirectionType(indirection, steps, t)
        else if IdentifierFits(steps, t, evaluated.value) then evaluated
        else None
      case CallOperand(call) =>
        if call.name !in F then None
        else if evaluated.None? then Some(F[call.name].typ)
        else if evaluated != Some(NO_TYPE) && CallAllowed(F, call) && F[call.name].typ == evaluated.value then evaluated
        else None
  }

  function UnitsType(F: Signatures, T: Types, evaluated: Option<Type>, units: seq<Unit>): Option<Type>
    decreases |units|
  {
    if units == [] then evaluated
    else
      var t :- UnitType(F, T, evaluated, units[0]);
      UnitsType(F, T, Some(t), units[1..])
  }

  // Every argument has the type of its parameter.
  predicate CallAllowed(F: Signatures, call: Call) {
    && call.name in F
    && |F[call.name].parameters| == |call.parameters|
    && forall i :: 0 <= i < |call.parameters| ==> call.parameters[i].evaluatedType == F[call.name].parameters[i].typ
  }

  // An assignment: the steps to take, and whether the expression is marked
  // as a pointer.
  function AssignmentMarks(T: Types, target: string, indirection: nat, e: Type): Option<(nat, bool)> {
    var t :- LookupIn<Type>(T, target);
    if t.isPointer then
      if indirection > t.pointerDepth then None
      else if indirection != 0 && indirection == t.pointerDepth then
        if t.dataType == e.dataType then Some((indirection, e.isPointer)) else None
      else if e.dataType == Int then Some((indirection, true))
      else None
    else if e == t then Some((0, e.isPointer))
    else None
  }

  // ----- in the parser's order -----

  function AnnotateOperand(F: Signatures, T: Types, o: Operand): Option<Operand>
    decreases o, 1
  {
    match o
    case CallOperand(call) =>
      var c :- AnnotateCall(F, T, call);
      Some(CallOperand(c))
    case _ => Some(o)
  }

  function AnnotateCall(F: Signatures, T: Types, call: Call): (r: Option<Call>)
    ensures r.Some? ==> r.value.name == call.name && |r.value.parameters| == |call.parameters| && CallAllowed(F, r.value)
    decreases call, 1
  {
    var es :- AnnotateArguments(F, T, call.parameters);
    var c := Call(call.name, es);
    if CallAllowed(F, c) then Some(c) else None
  }

  function AnnotateArguments(F: Signatures, T: Types, es: seq<Expression>): (r: Option<seq<Expression>>)
    ensures r.Some? ==> |r.value| == |es|
    decreases es, 0
  {
    if es == [] then Some([])
    else
      var e :- AnnotateExpression(F, T, es[0]);
      var others :- AnnotateArguments(F, T, es[1..]);
      Some([e] + others)
  }

  function AnnotateUnits(F: Signatures, T: Types, units: seq<Unit>): (r: Option<seq<Unit>>)
    ensures r.Some? ==> |r.value| == |units|
    decreases units, 0
  {
    if units == [] then Some([])
    else
      var u :- AnnotateUnit(F, T, units[0]);
      var others :- AnnotateUnits(F, T, units[1..]);
      Some([u] + others)
  }

  function AnnotateUnit(F: Signatures, T: Types, u: Unit): Option<Unit>
    decreases u, 2
  {
    var o :- AnnotateOperand(F, T, u.operand);
    Some(u.(operand := o))
  }

  function AnnotateExpression(F: Signatures, T: Types, e: Expression): Option<Expression>
    decreases e, 1
  {
    var units :- AnnotateUnits(F, T, e.units);
    var t :- UnitsType(F, T, None, units);
    Some(Expression(units, t))
  }

  function AnnotateOptional(F: Signatures, T: Types, e: Option<Expression>): Option<Option<Expression>> {
    if e.None? then Some(None)
    else
      var x :- AnnotateExpression(F, T, e.value);
      Some(Some(x))
  }

  function AnnotateAssignment(F: Signatures, T: Types, target: string, indirection: nat, e: Expression): Option<Statement> {
    var x :- AnnotateExpression(F, T, e);
    var (steps, isPointer) :- AssignmentMarks(T, target, indirection, x.evaluatedType);
    Some(Assignment(target, steps, x.(evaluatedType := x.evaluatedType.(isPointer := isPointer))))
  }

  // `ret` is the declared type of the function being read.
  function AnnotateStatement(F: Signatures, T: Types, ret: Type, s: Statement): Option<(Statement, Types)>
    decreases s, 1
  {
    match s
    case Declaration(v) =>
      if T != [] && v.name !in T[0] then Some((s, Declare(T, v.name, v.typ))) else None
    case Assignment(target, indirection, e) =>
      var a :- AnnotateAssignment(F, T, target, indirection, e);
      Some((a, T))
    case CallStatement(call) =>
      var c :- AnnotateCall(F, T, call);
      Some((CallStatement(c), T))
    case Conditional(chain) =>
      var c :- AnnotateChain(F, T, ret, chain);
      Some((Conditional(c), T))
  }

  function AnnotateStatements(F: Signatures, T: Types, ret: Type, ss: seq<Statement>): Option<(seq<Statement>, Types)>
    decreases ss, 0
  {
    if ss == [] then Some(([], T))
    else
      var (s, T1) :- AnnotateStatement(F, T, ret, ss[0]);
      var (others, T2) :- AnnotateStatements(F, T1, ret, ss[1..]);
      Some(([s] + others, T2))
  }

  function AnnotateChain(F: Signatures, T: Types, ret: Type, chain: seq<Branch>): (r: Option<seq<Branch>>)
    ensures r.Some? ==> |r.value| == |chain|
    decreases chain, 0
  {
    if chain == [] then Some([])
    else
      var b :- AnnotateBranch(F, T, ret, chain[0]);
      var others :- AnnotateChain(F, T, ret, chain[1..]);
      Some([b] + others)
  }

  function AnnotateBranch(F: Signatures, T: Types, ret: Type, b: Branch): Option<Branch>
    decreases b, 2
  {
    var condition :- AnnotateOptional(F, T, b.condition);
    var block :- AnnotateBlock(F, T, map[], ret, false, b.block);
    Some(Branch(condition, block))
  }

  // A function's block must return its type; a local one may return nothing.
  function AnnotateBlock(F: Signatures, T: Types, names: map<string, Type>, ret: Type, isFunction: bool, b: Block): Option<Block>
    decreases b, 1
  {
    var (ss, T1) :- AnnotateStatements(F, [names] + T, ret, b.statements);
    var value :- AnnotateOptional(F, T1, b.returnValue);
    if ReturnAllowed(ret, isFunction, value) then Some(Block(ss, value)) else None
  }

  predicate ReturnAllowed(ret: Type, isFunction: bool, value: Option<Expression>) {
    var t := if value.Some? then value.value.evaluatedType else NO_TYPE;
    isFunction || t != NO_TYPE ==> t == ret
  }

  // The parameters, each declared once.
  function ParameterTypes(ps: seq<Variable>): Option<map<string, Type>> {
    if ps == [] then Some(map[])
    else
      var names :- ParameterTypes(ps[..|ps| - 1]);
      var p := ps[|ps| - 1];
      if p.name in names then None else Some(names[p.name := p.typ])
  }

  function AnnotateBody(F: Signatures, globals: map<string, Type>, s: Signature, b: Block): Option<Block> {
    var names :- ParameterTypes(s.parameters);
    AnnotateBlock(F, [globals], names, s.typ, true, b)
  }

  // ----- registration of functions -----

  datatype Status = Declared | Defined

  datatype Entry = Entry(signature: Signature, status: Status)

  function TypesOf(ps: seq<Variable>): (r: seq<Type>)
    ensures |r| == |ps|
    ensures forall i :: 0 <= i < |r| ==> r[i] == ps[i].typ
  {
    seq(|ps|, i requires 0 <= i < |ps| => ps[i].typ)
  }

  // The first entry of a name stays; a later one may only repeat a declaration.
  function AddFunction(E: map<string, Entry>, name: string, e: Entry): Option<map<string, Entry>> {
    if name !in E then Some(E[name := e])
    else if E[name].status == Declared && e.status == Declared
            && TypesOf(E[name].signature.parameters) == TypesOf(e.signature.parameters) && E[name].signature.typ == e.signature.typ
    then Some(E)
    else None
  }

  // ----- a whole unit -----

  // What the text declares, in order.
  datatype Source =
    | GlobalSource(variable: Variable, initial: Option<Constant>)
    | FunctionSource(name: string, signature: Signature, body: Option<Block>)

  function EntryOf(s: Source): Entry
    requires s.FunctionSource?
  {
    Entry(s.signature, if s.body.Some? then Defined else Declared)
  }

  datatype Known = Known(globals: map<string, Type>, functions: map<string, Entry>)

  // The first pass.
  function Register(k: Known, sources: seq<Source>): Option<Known>
    decreases |sources|
  {
    if sources == [] then Some(k)
    else
      var k1 :- RegisterOne(k, sources[0]);
      Register(k1, sources[1..])
  }

  function RegisterOne(k: Known, s: Source): Option<Known> {
    match s
    case GlobalSource(v, _) =>
      if v.name in k.globals then None else Some(k.(globals := k.globals[v.name := v.typ]))
    case FunctionSource(name, signature, _) =>
      var E :- AddFunction(k.functions, name, EntryOf(s));
      Some(k.(functions := E))
  }

  // The second pass, with every global and function known.
  function AnnotateBodies(F: Signatures, globals: map<string, Type>, sources: seq<Source>): Option<seq<Item>>
    decreases |sources|
  {
    if sources == [] then Some([])
    else
      var others :- AnnotateBodies(F, globals, sources[1..]);
      if sources[0].FunctionSource? && sources[0].body.Some? then
        var b :- AnnotateBody(F, globals, sources[0].signature, sources[0].body.value);
        Some([BodyItem(sources[0].name, b)] + others)
      else Some(others)
  }

  function DeclarationItem(s: Source): Item {
    match s
    case GlobalSource(v, c) => GlobalItem(v, c)
    case FunctionSource(name, signature, _) => FunctionItem(name, signature)
  }

  function DeclarationItems(sources: seq<Source>): (r: seq<Item>)
    ensures |r| == |sources|
    ensures forall i :: 0 <= i < |r| ==> r[i] == DeclarationItem(sources[i])
  {
    seq(|sources|, i requires 0 <= i < |sources| => DeclarationItem(sources[i]))
  }

  function SignaturesKnown(k: Known): Signatures {
    map n | n in k.functions :: k.functions[n].signature
  }

  // Declarations first, then bodies.
  function Analyze(sources: seq<Source>): Option<(seq<Item>, seq<Item>)> {
    var k :- Register(Known(map[], map[]), sources);
    var bodies :- AnnotateBodies(SignaturesKnown(k), k.globals, sources);
    Some((DeclarationItems(sources), bodies))
  }
}
