/**
  The syntax tree that the parser builds and the generator lowers
  (include/AST). The block of a function body opens a function scope and the
  block of a conditional branch a local one, so a block needs no kind of its
  own; only identifiers can carry an indirection.
 */
module Ast {
  import opened Wrappers
  import Lexing

  datatype DataType = NoType | Int | SInt32 | UInt32 | Bool | Char | Str

  datatype Type = Type(dataType: DataType, isPointer: bool, pointerDepth: nat)

  const NO_TYPE := Type(NoType, false, 0)

  datatype Variable = Variable(typ: Type, name: string)

  datatype Operator = Plus | Minus | Or | And

  datatype Indirection = Plain | GetAddress | GetValue

  datatype Operand =
    | Identifier(name: string, indirection: Indirection, steps: nat)
    | IntegerLiteral(digits: string)
    | StringLiteral(text: string)
    | CallOperand(call: Call)

  datatype Call = Call(name: string, parameters: seq<Expression>)

  datatype Unit = Unit(operation: Option<Operator>, operand: Operand)

  datatype Expression = Expression(units: seq<Unit>, evaluatedType: Type)

  datatype Statement =
    | Declaration(variable: Variable)
    | Assignment(target: string, steps: nat, expression: Expression)
    | CallStatement(call: Call)
    | Conditional(chain: seq<Branch>)

  // A branch without a condition is an else.
  datatype Branch = Branch(condition: Option<Expression>, block: Block)

  datatype Block = Block(statements: seq<Statement>, returnValue: Option<Expression>)

  datatype Signature = Signature(parameters: seq<Variable>, typ: Type)

  const INT_MAX: int := 0x7fff_ffff

  // std::stoi on a literal made of digits and dots: the leading digits, or an
  // exception when there are none or their value leaves 32 signed bits.
  function Stoi(digits: string): Option<int> {
    if digits == [] || !Lexing.IsDigit(digits[0]) then None
    else
      var n := LeadingDigits(digits, 0);
      if n <= INT_MAX then Some(n) else None
  }

  function LeadingDigits(digits: string, n: nat): (r: nat)
    ensures r >= n
    decreases |digits|
  {
    if digits == [] || !Lexing.IsDigit(digits[0]) then n
    else LeadingDigits(digits[1..], 10 * n + (digits[0] as int - '0' as int))
  }
}
