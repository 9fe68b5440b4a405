/**
  A canonical layout for syntax trees: a newline after every statement and
  after every inner closing brace.
 */
module Printer {
  import opened Wrappers
  import opened Ast
  import Lexing
  import Items
  import Analysis
  import opened Grammar

  function Mark(t: Kind): Lexing.Token { Lexing.Token(t, "") }

  function Name(name: string): Lexing.Token { Lexing.Token(Lexing.Identifier, name) }

  function Repeat(t: Kind, n: nat): (r: Stream)
    ensures |r| == n
  {
    if n == 0 then [] else [Mark(t)] + Repeat(t, n - 1)
  }

  function OperatorKind(o: Operator): Kind {
    match o
    case Plus => Lexing.Plus
    case Minus => Lexing.Minus
    case Or => Lexing.Or
    case And => Lexing.And
  }

  function PrintOperand(o: Operand): Stream
    decreases o, 1
  {
    match o
    case Identifier(name, Plain, _) => [Name(name)]
    case Identifier(name, GetAddress, _) => [Mark(Lexing.Ampersand), Name(name)]
    case Identifier(name, GetValue, steps) => Repeat(Lexing.Star, steps) + [Name(name)]
    case IntegerLiteral(digits) => [Lexing.Token(Lexing.IntegerLiteral, digits)]
    case StringLiteral(text) => [Lexing.Token(Lexing.StringLiteral, text)]
    case CallOperand(call) => PrintCall(call)
  }

  function PrintCall(call: Call): Stream
    decreases call, 1
  {
    [Name(call.name), Mark(Lexing.LeftParenthesis)] + PrintArguments(call.parameters) + [Mark(Lexing.RightParenthesis)]
  }

  function PrintArguments(es: seq<Expression>): Stream
    decreases es, 0
  {
    if es == [] then []
    else PrintExpression(es[0]) + (if |es| == 1 then [] else [Mark(Lexing.Comma)]) + PrintArguments(es[1..])
  }

  function PrintUnits(units: seq<Unit>): Stream
    decreases units, 0
  {
    if units == [] then [] else PrintUnit(units[0]) + PrintUnits(units[1..])
  }

  function PrintUnit(u: Unit): Stream
    decreases u, 2
  {
    (if u.operation.Some? then [Mark(OperatorKind(u.operation.value))] else []) + PrintOperand(u.operand)
  }

  function PrintExpression(e: Expression): Stream
    decreases e, 1
  {
    PrintUnits(e.units)
  }

  function TypeKind(t: DataType): Kind {
    match t
    case Int => Lexing.IntType
    case SInt32 => Lexing.SInt32Type
    case UInt32 => Lexing.UInt32Type
    case Bool => Lexing.BoolType
    case Char => Lexing.CharType
    case Str => Lexing.StringType
    case NoType => Lexing.NoToken
  }

  function PrintVariable(v: Variable): Stream {
    [Mark(TypeKind(v.typ.dataType))] + Repeat(Lexing.Ampersand, v.typ.pointerDepth) + [Name(v.name)]
  }

  function PrintStatement(s: Statement): Stream
    decreases s, 1
  {
    match s
    case Declaration(v) => PrintVariable(v)
    case Assignment(target, steps, e) => Repeat(Lexing.Star, steps) + [Name(target), Mark(Lexing.Equal)] + PrintExpression(e)
    case CallStatement(call) => PrintCall(call)
    case Conditional(chain) => PrintChain(chain, true)
  }

  function PrintStatements(ss: seq<Statement>): Stream
    decreases ss, 0
  {
    if ss == [] then [] else PrintStatement(ss[0]) + [Lexing.NEWLINE] + PrintStatements(ss[1..])
  }

  function PrintChain(chain: seq<Branch>, start: bool): Stream
    decreases chain, 0
  {
    if chain == [] then []
    else PrintBranch(chain[0], start) + (if |chain| == 1 then [] else [Lexing.NEWLINE]) + PrintChain(chain[1..], false)
  }

  function PrintBranch(b: Branch, start: bool): Stream
    decreases b, 2
  {
    match b.condition
    case None => [Mark(Lexing.Else)] + PrintBlock(b.block)
    case Some(e) =>
      [Mark(if start then Lexing.If else Lexing.Elif), Mark(Lexing.LeftParenthesis)] + PrintExpression(e)
      + [Mark(Lexing.RightParenthesis)] + PrintBlock(b.block)
  }

  function PrintReturn(e: Option<Expression>): Stream {
    match e
    case None => []
    case Some(x) => [Mark(Lexing.Return)] + PrintExpression(x) + [Lexing.NEWLINE]
  }

  function PrintBlock(b: Block): Stream
    decreases b, 1
  {
    [Mark(Lexing.LeftCurlyBrace), Lexing.NEWLINE] + PrintStatements(b.statements) + PrintReturn(b.returnValue) + [Mark(Lexing.RightCurlyBrace)]
  }

  function PrintParameters(ps: seq<Variable>): Stream {
    if ps == [] then []
    else PrintVariable(ps[0]) + (if |ps| == 1 then [] else [Mark(Lexing.Comma)]) + PrintParameters(ps[1..])
  }

  function PrintSource(s: Analysis.Source): Stream {
    match s
    case GlobalSource(v, None) => PrintVariable(v)
    case GlobalSource(v, Some(ConstInteger(digits))) =>
      PrintVariable(v) + [Mark(Lexing.Equal), Lexing.Token(Lexing.IntegerLiteral, digits)]
    case GlobalSource(v, Some(ConstString(_))) => []
    case FunctionSource(name, signature, body) =>
      PrintVariable(Variable(signature.typ, name)) + [Mark(Lexing.LeftParenthesis)] + PrintParameters(signature.parameters)
      + [Mark(Lexing.RightParenthesis)] + if body.Some? then PrintBlock(body.value) else []
  }

  function Print(sources: seq<Analysis.Source>): Stream {
    if sources == [] then [] else PrintSource(sources[0]) + [Lexing.NEWLINE] + Print(sources[1..])
  }

  // ----- trees that have a layout -----

  predicate PrintableOperand(o: Operand)
    decreases o, 1
  {
    match o
    case Identifier(_, Plain, steps) => steps == 0
    case Identifier(_, GetAddress, steps) => steps == 1
    case Identifier(_, GetValue, steps) => 0 < steps <= 0xffff
    case IntegerLiteral(_) => true
    case StringLiteral(_) => true
    case CallOperand(call) => PrintableCall(call)
  }

  predicate PrintableCall(call: Call)
    decreases call, 1
  {
    |call.parameters| <= LOOP_LIMIT && PrintableArguments(call.parameters)
  }

  predicate PrintableArguments(es: seq<Expression>)
    decreases es, 0
  {
    es == [] || (PrintableExpression(es[0]) && PrintableArguments(es[1..]))
  }

  // Only the first unit has no operator.
  predicate PrintableUnits(units: seq<Unit>, first: bool)
    decreases units, 0
  {
    units == [] || (PrintableUnit(units[0], first) && PrintableUnits(units[1..], false))
  }

  predicate PrintableUnit(u: Unit, first: bool)
    decreases u, 2
  {
    u.operation.None? == first && PrintableOperand(u.operand)
  }

  predicate PrintableExpression(e: Expression)
    decreases e, 1
  {
    e.units != [] && |e.units| <= LOOP_LIMIT && e.evaluatedType == NO_TYPE && PrintableUnits(e.units, true)
  }

  predicate PrintableVariable(v: Variable) {
    v.typ.dataType != NoType && v.typ.pointerDepth < LOOP_LIMIT && (v.typ.isPointer <==> v.typ.pointerDepth > 0)
  }

  predicate PrintableStatement(s: Statement)
    decreases s, 1
  {
    match s
    case Declaration(v) => PrintableVariable(v)
    case Assignment(_, steps, e) => steps <= LOOP_LIMIT && PrintableExpression(e)
    case CallStatement(call) => PrintableCall(call)
    case Conditional(chain) => chain != [] && PrintableChain(chain, true)
  }

  predicate PrintableStatements(ss: seq<Statement>)
    decreases ss, 0
  {
    ss == [] || (PrintableStatement(ss[0]) && PrintableStatements(ss[1..]))
  }

  // Only the first branch must have a condition.
  predicate PrintableChain(chain: seq<Branch>, start: bool)
    decreases chain, 0
  {
    chain == [] || (PrintableBranch(chain[0], start) && PrintableChain(chain[1..], false))
  }

  predicate PrintableBranch(b: Branch, start: bool)
    decreases b, 2
  {
    (if b.condition.Some? then PrintableExpression(b.condition.value) else !start) && PrintableBlock(b.block)
  }

  predicate PrintableBlock(b: Block)
    decreases b, 1
  {
    |b.statements| <= LOOP_LIMIT && PrintableStatements(b.statements)
    && (b.returnValue.Some? ==> PrintableExpression(b.returnValue.value))
  }

  predicate PrintableSource(s: Analysis.Source) {
    match s
    case GlobalSource(v, None) => PrintableVariable(v)
    case GlobalSource(v, Some(ConstInteger(_))) => PrintableVariable(v)
    case GlobalSource(_, Some(ConstString(_))) => false
    case FunctionSource(name, signature, body) =>
      && PrintableVariable(Variable(signature.typ, name)) && |signature.parameters| <= LOOP_LIMIT
      && (forall p :: p in signature.parameters ==> PrintableVariable(p))
      && (body.Some? ==> PrintableBlock(body.value) && |PrintBlock(body.value)| <= LOOP_LIMIT)
  }
}
