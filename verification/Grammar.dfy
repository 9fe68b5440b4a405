/**
  What the parser (lib/Parser) reads from a stream of tokens, as functions from
  the tokens left to a tree and the tokens left after it. The first token of a
  stream is the parser's current token; the empty stream is the end of file.
 */
module Grammar {
  import opened Wrappers
  import opened Ast
  import Lexing
  import Prefixes
  import Items
  import Analysis

  type Stream = seq<Lexing.Token>

  type Kind = Lexing.TokenType

  const LOOP_LIMIT: nat := 1000000

  function Head(ts: Stream): Kind { if ts == [] then Lexing.EndOfFile else ts[0].typ }

  function Value(ts: Stream): string { if ts == [] then "" else ts[0].value }

  function Tail(ts: Stream): (r: Stream)
    ensures |r| <= |ts| && (ts != [] ==> |r| < |ts|)
  {
    if ts == [] then [] else ts[1..]
  }

  // The kind of the first token behind the current one that is no newline.
  function Ahead(ts: Stream): Kind { Lexing.FirstNotNewline(Tail(ts)).typ }

  function SkipLoop(ts: Stream, n: nat): (r: Stream)
    ensures |r| <= |ts|
    decreases |ts|
  {
    var next := Tail(ts);
    if Head(next) != Lexing.Newline || n > LOOP_LIMIT then next else SkipLoop(next, n + 1)
  }

  function SkipNewlines(ts: Stream): (r: Stream)
    ensures |r| <= |ts|
  {
    if Head(ts) != Lexing.Newline then ts else SkipLoop(ts, 0)
  }

  // ----- expressions -----

  function PrefixLoop(ts: Stream, step: int, afterAmp: bool, n: nat): (r: Option<(int, Stream)>)
    ensures r.Some? ==> |r.value.1| <= |ts|
    decreases |ts|, 1
  {
    match Head(ts)
    case Ampersand => if afterAmp then None else PrefixNext(Tail(ts), step + 1, true, n)
    case Star => PrefixNext(Tail(ts), step - 1, false, n)
    case _ => Some((step, ts))
  }

  function PrefixNext(ts: Stream, step: int, afterAmp: bool, n: nat): (r: Option<(int, Stream)>)
    ensures r.Some? ==> |r.value.1| <= |ts|
    decreases |ts|, 2
  {
    if Prefixes.LimitTest(step) then None
    else if n < LOOP_LIMIT then PrefixLoop(ts, step, afterAmp, n + 1)
    else Some((step, ts))
  }

  function OperatorOf(t: Kind): Option<Operator> {
    match t
    case Plus => Some(Operator.Plus)
    case Minus => Some(Operator.Minus)
    case Or => Some(Operator.Or)
    case And => Some(Operator.And)
    case _ => None
  }

  // The category; `=` is in it without being an operator of expressions.
  predicate IsOperator(t: Kind) { OperatorOf(t).Some? || t == Lexing.Equal }

  ghost predicate Shrinks<T>(ts: Stream, r: Option<(T, Stream)>) { r.Some? ==> |r.value.1| < |ts| }

  function ParseOperand(ts: Stream): (r: Option<(Operand, Stream)>)
    ensures Shrinks(ts, r)
    decreases |ts|, 0
  {
    var (step, ts1) :- PrefixLoop(ts, 0, false, 0);
    match Head(ts1)
    case Identifier =>
      var name, ts2 := Value(ts1), Tail(ts1);
      if Head(ts2) == Lexing.LeftParenthesis then
        var (call, ts3) :- ParseCall(name, ts2);
        if step == 0 then Some((CallOperand(call), ts3)) else None
      else Some((Operand.Identifier(name, Prefixes.NetIndirection(step), Prefixes.NetSteps(step)), ts2))
    case StringLiteral =>
      if step == 0 then Some((Operand.StringLiteral(Value(ts1)), Tail(ts1))) else None
    case IntegerLiteral =>
      if step == 0 then Some((Operand.IntegerLiteral(Value(ts1)), Tail(ts1))) else None
    case _ => None
  }

  function ParseUnit(ts: Stream, first: bool): (r: Option<(Unit, Stream)>)
    ensures Shrinks(ts, r)
    decreases |ts|, 1
  {
    if first then
      var (o, ts1) :- ParseOperand(ts);
      Some((Unit(None, o), ts1))
    else
      var operation :- OperatorOf(Head(ts));
      var (o, ts1) :- ParseOperand(Tail(ts));
      Some((Unit(Some(operation), o), ts1))
  }

  function ParseUnits(ts: Stream, first: bool, n: nat): (r: Option<(seq<Unit>, Stream)>)
    ensures Shrinks(ts, r)
    decreases |ts|, 2
  {
    var (u, ts1) :- ParseUnit(ts, first);
    if !IsOperator(Head(ts1)) || n >= LOOP_LIMIT then Some(([u], ts1))
    else
      var (us, ts2) :- ParseUnits(ts1, false, n + 1);
      Some(([u] + us, ts2))
  }

  function ParseExpression(ts: Stream): (r: Option<(Expression, Stream)>)
    ensures Shrinks(ts, r)
    decreases |ts|, 3
  {
    var (units, ts1) :- ParseUnits(ts, true, 0);
    Some((Expression(units, NO_TYPE), ts1))
  }

  function ParseArguments(ts: Stream, n: nat): (r: Option<(seq<Expression>, Stream)>)
    ensures Shrinks(ts, r)
    decreases |ts|, 4
  {
    var (e, ts1) :- ParseExpression(ts);
    if Head(ts1) == Lexing.RightParenthesis then Some(([e], ts1))
    else if Head(ts1) != Lexing.Comma then None
    else if n >= LOOP_LIMIT then Some(([e], Tail(ts1)))
    else
      var (es, ts2) :- ParseArguments(Tail(ts1), n + 1);
      Some(([e] + es, ts2))
  }

  function ParseCall(name: string, ts: Stream): (r: Option<(Call, Stream)>)
    ensures Shrinks(ts, r)
    decreases |ts|, 0
  {
    if Head(ts) != Lexing.LeftParenthesis then None
    else if Head(Tail(ts)) == Lexing.RightParenthesis then Some((Call(name, []), Tail(Tail(ts))))
    else
      var (es, ts1) :- ParseArguments(Tail(ts), 0);
      if Head(ts1) == Lexing.RightParenthesis then Some((Call(name, es), Tail(ts1))) else None
  }

  // ----- declarations -----

  function DataTypeOf(t: Kind): Option<DataType> {
    match t
    case IntType => Some(Int)
    case SInt32Type => Some(SInt32)
    case UInt32Type => Some(UInt32)
    case BoolType => Some(Bool)
    case CharType => Some(Char)
    case StringType => Some(Str)
    case _ => None
  }

  // The current token is an ampersand, and `depth` of them have been counted.
  function DepthLoop(ts: Stream, depth: nat): (r: (nat, Stream))
    ensures |r.1| <= |ts|
    decreases |ts|
  {
    var next := Tail(ts);
    if Head(next) != Lexing.Ampersand then (depth, next)
    else if depth + 1 >= LOOP_LIMIT then (depth + 1, next)
    else DepthLoop(next, depth + 1)
  }

  function ParseType(ts: Stream): (r: Option<(Type, Stream)>)
    ensures Shrinks(ts, r)
  {
    var dataType :- DataTypeOf(Head(ts));
    var ts1 := Tail(ts);
    if Head(ts1) != Lexing.Ampersand then Some((Type(dataType, false, 0), ts1))
    else
      var (depth, ts2) := DepthLoop(ts1, 1);
      Some((Type(dataType, true, depth), ts2))
  }

  function ParseVariable(ts: Stream): (r: Option<(Variable, Stream)>)
    ensures Shrinks(ts, r)
  {
    var (typ, ts1) :- ParseType(ts);
    if Head(ts1) == Lexing.Identifier then Some((Variable(typ, Value(ts1)), Tail(ts1))) else None
  }

  // ----- statements -----

  function ParseAssigned(ts: Stream): (r: Option<(Expression, Stream)>)
    ensures Shrinks(ts, r)
  {
    if Head(ts) != Lexing.Equal then None
    else
      var (e, ts1) :- ParseExpression(Tail(ts));
      if Head(ts1) == Lexing.Newline then Some((e, ts1)) else None
  }

  // A call keeps no trace of the stars in front of it.
  function ParseCallOrAssignment(ts: Stream, stars: nat): (r: Option<(seq<Statement>, Stream)>)
    ensures Shrinks(ts, r)
  {
    if Head(ts) != Lexing.Identifier then None
    else if Head(Tail(ts)) == Lexing.Equal then
      var (e, ts1) :- ParseAssigned(Tail(ts));
      Some(([Assignment(Value(ts), stars, e)], ts1))
    else
      var (call, ts1) :- ParseCall(Value(ts), Tail(ts));
      Some(([CallStatement(call)], ts1))
  }

  function StarLoop(ts: Stream, stars: nat, n: nat): (r: (nat, Stream))
    ensures |r.1| <= |ts|
    decreases |ts|
  {
    if Head(ts) != Lexing.Star then (stars, ts)
    else if n >= LOOP_LIMIT then (stars + 1, Tail(ts))
    else StarLoop(Tail(ts), stars + 1, n + 1)
  }

  function ParseDeclaration(ts: Stream): (r: Option<(seq<Statement>, Stream)>)
    ensures Shrinks(ts, r)
  {
    var (v, ts1) :- ParseVariable(ts);
    if Head(ts1) == Lexing.Equal then
      var (e, ts2) :- ParseAssigned(ts1);
      Some(([Declaration(v), Assignment(v.name, 0, e)], ts2))
    else if Head(ts1) == Lexing.Newline then Some(([Declaration(v)], ts1))
    else None
  }

  predicate EndsStatements(t: Kind) { t == Lexing.Return || t == Lexing.RightCurlyBrace }

  function ParseStatements(ts: Stream): (r: Option<(seq<Statement>, Stream)>)
    ensures r.Some? ==> |r.value.1| <= |ts|
    decreases |ts|, 6
  {
    if EndsStatements(Head(ts)) then Some(([], ts)) else StatementLoop(SkipNewlines(ts), 0)
  }

  // After a statement one token is dropped, whatever it is.
  function StatementLoop(ts: Stream, n: nat): (r: Option<(seq<Statement>, Stream)>)
    ensures Shrinks(ts, r)
    decreases |ts|, 5
  {
    var (ss, ts1) :- ParseStatement(ts);
    var ts2 := SkipNewlines(Tail(ts1));
    if EndsStatements(Head(ts2)) || n >= LOOP_LIMIT then Some((ss, ts2))
    else
      var (others, ts3) :- StatementLoop(ts2, n + 1);
      Some((ss + others, ts3))
  }

  function ParseStatement(ts: Stream): (r: Option<(seq<Statement>, Stream)>)
    ensures Shrinks(ts, r)
    decreases |ts|, 4
  {
    match Head(ts)
    case Star =>
      var (stars, ts1) := StarLoop(ts, 0, 0);
      ParseCallOrAssignment(ts1, stars)
    case If =>
      var (chain, ts1) :- ParseGroup(ts, true);
      Some(([Conditional(chain)], ts1))
    case Identifier => ParseCallOrAssignment(ts, 0)
    case _ => ParseDeclaration(ts)
  }

  // The lookahead for another branch starts behind the current token.
  function ParseGroup(ts: Stream, start: bool): (r: Option<(seq<Branch>, Stream)>)
    ensures Shrinks(ts, r)
    decreases |ts|, 3
  {
    var (b, ts1) :- ParseBranch(SkipNewlines(ts), start);
    if Ahead(ts1) == Lexing.Elif || Ahead(ts1) == Lexing.Else then
      var (bs, ts2) :- ParseGroup(ts1, false);
      Some(([b] + bs, ts2))
    else Some(([b], ts1))
  }

  function ParseBranch(ts: Stream, start: bool): (r: Option<(Branch, Stream)>)
    ensures Shrinks(ts, r)
    decreases |ts|, 2
  {
    if start && Head(ts) != Lexing.If then None
    else if !start && Head(ts) != Lexing.Elif && Head(ts) != Lexing.Else then None
    else if Head(ts) == Lexing.Else then
      var (b, ts1) :- ParseBlock(Tail(ts));
      Some((Branch(None, b), ts1))
    else if Head(Tail(ts)) != Lexing.LeftParenthesis then None
    else
      var (e, ts1) :- ParseExpression(Tail(Tail(ts)));
      if Head(ts1) != Lexing.RightParenthesis then None
      else
        var (b, ts2) :- ParseBlock(Tail(ts1));
        Some((Branch(Some(e), b), ts2))
  }

  function ParseReturn(ts: Stream): (r: Option<(Option<Expression>, Stream)>)
    ensures r.Some? ==> |r.value.1| <= |ts|
  {
    if Head(ts) != Lexing.Return then Some((None, ts))
    else
      var (e, ts1) :- ParseExpression(Tail(ts));
      Some((Some(e), ts1))
  }

  function ParseBlock(ts: Stream): (r: Option<(Block, Stream)>)
    ensures Shrinks(ts, r)
    decreases |ts|, 1
  {
    var ts0 := SkipNewlines(ts);
    if Head(ts0) != Lexing.LeftCurlyBrace then None
    else
      var (ss, ts1) :- ParseStatements(SkipNewlines(Tail(ts0)));
      var (value, ts2) :- ParseReturn(ts1);
      var ts3 := SkipNewlines(ts2);
      if Head(ts3) == Lexing.RightCurlyBrace then Some((Block(ss, value), Tail(ts3))) else None
  }

  // ----- the first pass -----

  // The nesting behind a token.
  function Deeper(t: Kind, depth: nat): nat
    requires depth > 0
  {
    if t == Lexing.LeftCurlyBrace then depth + 1 else if t == Lexing.RightCurlyBrace then depth - 1 else depth
  }

  // From behind the opening brace to the brace that closes it. At the end of
  // file the loop runs into its limit.
  function SkipBraces(ts: Stream, depth: nat, n: nat): (r: Option<Stream>)
    requires depth > 0
    ensures r.Some? ==> |r.value| <= |ts|
    decreases |ts|
  {
    var d := Deeper(Head(ts), depth);
    if d == 0 then Some(ts)
    else if ts == [] || n > LOOP_LIMIT then None
    else SkipBraces(Tail(ts), d, n + 1)
  }

  function SkipBody(ts: Stream): (r: Option<Stream>)
    ensures r.Some? ==> |r.value| <= |ts|
  {
    var ts0 := if Head(ts) == Lexing.LeftCurlyBrace then ts else SkipNewlines(ts);
    if Head(ts0) == Lexing.LeftCurlyBrace then SkipBraces(Tail(ts0), 1, 0) else None
  }

  // An empty pair of brackets; None when the second is missing.
  function ParseDirective(ts: Stream): (r: (bool, Stream))
    ensures |r.1| <= |ts|
  {
    if Head(ts) != Lexing.LeftBracket then (true, ts)
    else if Head(Tail(ts)) != Lexing.RightBracket then (false, Tail(ts))
    else (true, Tail(Tail(ts)))
  }

  function ParseParameters(ts: Stream, n: nat): (r: Option<(seq<Variable>, Stream)>)
    ensures Shrinks(ts, r)
    decreases |ts|
  {
    var (v, ts1) :- ParseVariable(ts);
    if Head(ts1) == Lexing.RightParenthesis then Some(([v], ts1))
    else if Head(ts1) != Lexing.Comma then None
    else if n >= LOOP_LIMIT then Some(([v], Tail(ts1)))
    else
      var (vs, ts2) :- ParseParameters(Tail(ts1), n + 1);
      Some(([v] + vs, ts2))
  }

  // What the first pass records; `start` is where a body is read later.
  datatype Top =
    | GlobalTop(variable: Variable, initial: Option<Items.Constant>)
    | FunctionTop(name: string, signature: Signature, start: Option<Stream>)

  // The failure of a directive here goes unnoticed.
  function ParseFunction(v: Variable, ts: Stream): (r: Option<(Top, Stream)>)
    ensures r.Some? ==> |r.value.1| <= |ts|
  {
    var (ps, ts1) :- if Head(ts) == Lexing.RightParenthesis then Some(([], ts)) else ParseParameters(ts, 0);
    if Head(ts1) != Lexing.RightParenthesis then None
    else
      var ts2 := ParseDirective(Tail(ts1)).1;
      if Head(ts2) == Lexing.LeftCurlyBrace || Ahead(ts2) == Lexing.LeftCurlyBrace then
        var ts3 :- SkipBody(ts2);
        Some((FunctionTop(v.name, Signature(ps, v.typ), Some(ts2)), ts3))
      else Some((FunctionTop(v.name, Signature(ps, v.typ), None), ts2))
  }

  // The kind of a constant is read off the token behind it.
  function ParseConstant(ts: Stream): (r: Option<(Items.Constant, Stream)>)
    ensures Shrinks(ts, r)
  {
    if Head(ts) != Lexing.StringLiteral && Head(ts) != Lexing.IntegerLiteral then None
    else
      var c := if Head(Tail(ts)) == Lexing.StringLiteral then Items.ConstString(Value(ts)) else Items.ConstInteger(Value(ts));
      Some((c, Tail(ts)))
  }

  function ParseInitial(ts: Stream): (r: Option<(Option<Items.Constant>, Stream)>)
    ensures r.Some? ==> |r.value.1| <= |ts|
  {
    if Head(ts) != Lexing.Equal then Some((None, ts))
    else
      var (c, ts1) :- ParseConstant(Tail(ts));
      Some((Some(c), ts1))
  }

  function ParseGlobal(v: Variable, ts: Stream): (r: Option<(Top, Stream)>)
    ensures r.Some? ==> |r.value.1| <= |ts|
  {
    var (initial, ts1) :- ParseInitial(ts);
    if Head(ts1) == Lexing.Newline then Some((GlobalTop(v, initial), ts1)) else None
  }

  function ParseTop(ts: Stream): (r: Option<(Top, Stream)>)
    ensures Shrinks(ts, r)
  {
    var (v, ts1) :- ParseVariable(ts);
    if Head(ts1) == Lexing.LeftParenthesis then ParseFunction(v, Tail(ts1)) else ParseGlobal(v, ts1)
  }

  predicate IsSeparator(t: Kind) {
    match t
    case LeftParenthesis => true
    case RightParenthesis => true
    case LeftCurlyBrace => true
    case RightCurlyBrace => true
    case LeftBracket => true
    case RightBracket => true
    case Comma => true
    case Newline => true
    case _ => false
  }

  // `ts` is behind the current token, which each turn drops.
  function TopLoop(ts: Stream, n: nat): (r: Option<seq<Top>>)
    decreases |ts|
  {
    if ts == [] then Some([])
    else if DataTypeOf(Head(ts)).Some? then
      var (top, ts1) :- ParseTop(ts);
      if n >= LOOP_LIMIT then Some([top])
      else
        var others :- TopLoop(Tail(ts1), n + 1);
        Some([top] + others)
    else if !IsSeparator(Head(ts)) then None
    else
      var (ok, ts1) := ParseDirective(ts);
      if !ok then None
      else if n >= LOOP_LIMIT then Some([])
      else TopLoop(Tail(ts1), n + 1)
  }

  // ----- the second pass -----

  function ParseBodies(tops: seq<Top>): (r: Option<seq<Analysis.Source>>)
    ensures r.Some? ==> |r.value| == |tops|
  {
    if tops == [] then Some([])
    else
      var s :- ParseBodyOf(tops[0]);
      var others :- ParseBodies(tops[1..]);
      Some([s] + others)
  }

  function ParseBodyOf(top: Top): Option<Analysis.Source> {
    match top
    case GlobalTop(v, c) => Some(Analysis.GlobalSource(v, c))
    case FunctionTop(name, signature, None) => Some(Analysis.FunctionSource(name, signature, None))
    case FunctionTop(name, signature, Some(start)) =>
      var (b, _) :- ParseBlock(start);
      Some(Analysis.FunctionSource(name, signature, Some(b)))
  }

  function Parse(ts: Stream): Option<seq<Analysis.Source>> {
    var tops :- TopLoop(ts, 0);
    ParseBodies(tops)
  }
}
