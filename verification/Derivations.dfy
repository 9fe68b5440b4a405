/**
  What the parser accepts and nothing else: from every block it reads, the very
  tokens it read can be told again, laid out by rules that say nothing of how
  they are parsed.
 */
module Derivations {
  import opened Wrappers
  import opened Ast
  import Lexing
  import opened Prefixes
  import opened Indirections
  import opened Grammar
  import opened Printer
  import Items
  import NewlineRuns

  // ----- tokens -----

  // Only names and literals have a value.
  predicate HasValue(t: Kind) { t == Lexing.Identifier || t == Lexing.IntegerLiteral || t == Lexing.StringLiteral || t == Lexing.NoToken }

  ghost predicate Tidy(ts: Stream) { forall t :: t in ts ==> HasValue(t.typ) || t.value == "" }

  lemma {:induction false} First(ts: Stream)
    requires Tidy(ts)
    ensures Tidy(Tail(ts))
    ensures Head(ts) != Lexing.EndOfFile ==> ts != [] && ts == [Lexing.Token(Head(ts), Value(ts))] + Tail(ts) && (!HasValue(Head(ts)) ==> Value(ts) == "")
  {
    if ts != [] {
      assert ts[0] in ts;
    }
  }

  lemma {:induction false} NextTidy(input: string, i: nat)
    requires i <= |input| && Lexing.NextToken(input, i).Some?
    ensures var t := Lexing.NextToken(input, i).value.0; HasValue(t.typ) || t.value == ""
    decreases |input| - i
  {
    if i < |input| {
      var c := input[i];
      if Lexing.IsSpace(c) && !Lexing.IsNewline(c) && i + 1 < |input| {
        NextTidy(input, i + 1);
      } else if c == '/' {
        NextTidy(input, Lexing.CommentEnd(input, i));
      }
    }
  }

  // The lexer gives no others.
  lemma {:induction false} LexedTidy(input: string, i: nat)
    requires i <= |input| && Lexing.Tokens(input, i).Some?
    ensures Tidy(Lexing.Tokens(input, i).value)
    decreases |input| - i
  {
    var (t, j) := Lexing.NextToken(input, i).value;
    NextTidy(input, i);
    if t != Lexing.END_OF_FILE {
      LexedTidy(input, j);
    }
  }

  // ----- texts of expressions -----

  datatype OperandText = OperandText(signs: seq<Sign>, atom: AtomText)

  datatype AtomText = NameAtom(name: string) | IntegerAtom(digits: string) | StringAtom(text: string) | CallAtom(call: CallText)

  datatype CallText = CallText(name: string, arguments: seq<ExpressionText>)

  datatype UnitText = UnitText(operation: Option<Operator>, operand: OperandText)

  datatype ExpressionText = ExpressionText(units: seq<UnitText>)

  function SpellSigns(signs: seq<Sign>): (r: Stream)
    ensures |r| == |signs| && forall i :: 0 <= i < |r| ==> r[i] == Mark(if signs[i] == Amp then Lexing.Ampersand else Lexing.Star)
  {
    seq(|signs|, i requires 0 <= i < |signs| => Mark(if signs[i] == Amp then Lexing.Ampersand else Lexing.Star))
  }

  function SpellOperand(o: OperandText): Stream
    decreases o, 1
  {
    SpellSigns(o.signs) + SpellAtom(o.atom)
  }

  function SpellAtom(a: AtomText): Stream
    decreases a, 1
  {
    match a
    case NameAtom(name) => [Name(name)]
    case IntegerAtom(digits) => [Lexing.Token(Lexing.IntegerLiteral, digits)]
    case StringAtom(text) => [Lexing.Token(Lexing.StringLiteral, text)]
    case CallAtom(call) => SpellCall(call)
  }

  function SpellCall(call: CallText): Stream
    decreases call, 1
  {
    [Name(call.name), Mark(Lexing.LeftParenthesis)] + SpellArguments(call.arguments) + [Mark(Lexing.RightParenthesis)]
  }

  function SpellArguments(es: seq<ExpressionText>): Stream
    decreases es, 0
  {
    if es == [] then []
    else SpellExpression(es[0]) + (if |es| == 1 then [] else [Mark(Lexing.Comma)]) + SpellArguments(es[1..])
  }

  function SpellUnits(units: seq<UnitText>): Stream
    decreases units, 0
  {
    if units == [] then [] else SpellUnit(units[0]) + SpellUnits(units[1..])
  }

  function SpellUnit(u: UnitText): Stream
    decreases u, 2
  {
    (if u.operation.Some? then [Mark(OperatorKind(u.operation.value))] else []) + SpellOperand(u.operand)
  }

  function SpellExpression(e: ExpressionText): Stream
    decreases e, 1
  {
    SpellUnits(e.units)
  }

  // The trees they are texts of. Only a name carries what its signs amount to.
  function OperandOf(o: OperandText): Operand
    decreases o, 1
  {
    match o.atom
    case NameAtom(name) => Identifier(name, NetIndirection(Net(o.signs)), NetSteps(Net(o.signs)))
    case IntegerAtom(digits) => IntegerLiteral(digits)
    case StringAtom(text) => StringLiteral(text)
    case CallAtom(call) => CallOperand(CallOf(call))
  }

  function CallOf(call: CallText): Call
    decreases call, 1
  {
    Call(call.name, ArgumentsOf(call.arguments))
  }

  function ArgumentsOf(es: seq<ExpressionText>): seq<Expression>
    decreases es, 0
  {
    if es == [] then [] else [ExpressionOf(es[0])] + ArgumentsOf(es[1..])
  }

  function UnitsOf(units: seq<UnitText>): seq<Unit>
    decreases units, 0
  {
    if units == [] then [] else [UnitOf(units[0])] + UnitsOf(units[1..])
  }

  function UnitOf(u: UnitText): Unit
    decreases u, 2
  {
    Unit(u.operation, OperandOf(u.operand))
  }

  function ExpressionOf(e: ExpressionText): Expression
    decreases e, 1
  {
    Expression(UnitsOf(e.units), NO_TYPE)
  }

  // No `&&`, no count beyond the limit, and nothing left of the signs in front
  // of what is no name.
  ghost predicate RightOperand(o: OperandText)
    decreases o, 1
  {
    && NoDoubleAmp(o.signs) && (forall k :: 0 <= k <= |o.signs| ==> InLimit(CountAt(o.signs, k)))
    && (!o.atom.NameAtom? ==> Net(o.signs) == 0)
    && (o.atom.CallAtom? ==> RightCall(o.atom.call))
  }

  ghost predicate RightCall(call: CallText)
    decreases call, 1
  {
    RightArguments(call.arguments)
  }

  ghost predicate RightArguments(es: seq<ExpressionText>)
    decreases es, 0
  {
    es == [] || (RightExpression(es[0]) && RightArguments(es[1..]))
  }

  // Only the first unit has no operator.
  ghost predicate RightUnits(units: seq<UnitText>, first: bool)
    decreases units, 0
  {
    units == [] || (RightUnit(units[0], first) && RightUnits(units[1..], false))
  }

  ghost predicate RightUnit(u: UnitText, first: bool)
    decreases u, 2
  {
    u.operation.None? == first && RightOperand(u.operand)
  }

  ghost predicate RightExpression(e: ExpressionText)
    decreases e, 1
  {
    e.units != [] && RightUnits(e.units, true)
  }

  // ----- every expression that is read -----

  lemma {:induction false} SignsSpelled(ts: Stream, m: nat)
    requires Tidy(ts)
    ensures var signs := Signs(ts, m); ts == SpellSigns(signs) + ts[|signs|..] && Tidy(ts[|signs|..])
  {
    hide Signs;
    var signs := Signs(ts, m);
    forall i | 0 <= i < |signs| ensures ts[i] == SpellSigns(signs)[i] {
      SignMark(ts, i, signs[i]);
    }
    Cut(ts, SpellSigns(signs));
    TidyTail(ts, |signs|);
  }

  lemma {:induction false} SignMark(ts: Stream, i: nat, sign: Sign)
    requires Tidy(ts) && i < |ts| && SignOf(ts[i].typ) == Some(sign)
    ensures ts[i] == Mark(if sign == Amp then Lexing.Ampersand else Lexing.Star)
  {
    assert ts[i] in ts;
  }

  lemma {:induction false} Cut(ts: Stream, front: Stream)
    requires |front| <= |ts| && forall i :: 0 <= i < |front| ==> ts[i] == front[i]
    ensures ts == front + ts[|front|..]
  {}

  lemma {:induction false} TidyTail(ts: Stream, k: nat)
    requires Tidy(ts) && k <= |ts|
    ensures Tidy(ts[k..])
  {
    forall t | t in ts[k..] ensures t in ts {
      var i :| 0 <= i < |ts[k..]| && ts[k..][i] == t;
      assert ts[k + i] == t;
    }
  }

  lemma {:induction false} OperandRead(ts: Stream) returns (o: OperandText)
    requires Tidy(ts) && |ts| <= 1_000_000 && ParseOperand(ts).Some?
    ensures var (x, rest) := ParseOperand(ts).value; RightOperand(o) && OperandOf(o) == x && ts == SpellOperand(o) + rest && Tidy(rest)
    decreases |ts|, 0
  {
    hide PrefixLoop, ParseCall, InLimit, CountAt, NoDoubleAmp, Signs, Tidy, Net;
    var signs := Signs(ts, TURNS);
    PrefixExact(ts);
    SignsSpelled(ts, TURNS);
    var (step, ts1) := PrefixLoop(ts, 0, false, 0).value;
    First(ts1);
    if Head(ts1) == Lexing.Identifier && Head(Tail(ts1)) == Lexing.LeftParenthesis {
      var call := CallRead(Value(ts1), Tail(ts1));
      o := OperandText(signs, CallAtom(call));
    } else if Head(ts1) == Lexing.Identifier {
      o := OperandText(signs, NameAtom(Value(ts1)));
    } else if Head(ts1) == Lexing.StringLiteral {
      o := OperandText(signs, StringAtom(Value(ts1)));
    } else {
      o := OperandText(signs, IntegerAtom(Value(ts1)));
    }
    Grouped(SpellSigns(signs), SpellAtom(o.atom), ParseOperand(ts).value.1);
  }

  lemma {:induction false} Grouped(a: Stream, b: Stream, c: Stream)
    ensures a + (b + c) == a + b + c
  {}

  lemma {:induction false} UnitRead(ts: Stream, first: bool) returns (u: UnitText)
    requires Tidy(ts) && |ts| <= 1_000_000 && ParseUnit(ts, first).Some?
    ensures var (x, rest) := ParseUnit(ts, first).value; RightUnit(u, first) && UnitOf(u) == x && ts == SpellUnit(u) + rest && Tidy(rest)
    decreases |ts|, 1
  {
    hide ParseOperand, RightOperand, Tidy;
    First(ts);
    if first {
      var o := OperandRead(ts);
      u := UnitText(None, o);
      assert [] + SpellOperand(o) == SpellOperand(o);
    } else {
      var o := OperandRead(Tail(ts));
      u := UnitText(OperatorOf(Head(ts)), o);
      assert OperatorKind(u.operation.value) == Head(ts);
      Grouped([Mark(Head(ts))], SpellOperand(o), ParseUnit(ts, first).value.1);
    }
  }

  lemma {:induction false} UnitsRead(ts: Stream, first: bool, n: nat) returns (us: seq<UnitText>)
    requires Tidy(ts) && |ts| <= 1_000_000 && ParseUnits(ts, first, n).Some?
    ensures var (x, rest) := ParseUnits(ts, first, n).value;
            us != [] && RightUnits(us, first) && UnitsOf(us) == x && ts == SpellUnits(us) + rest && Tidy(rest)
    decreases |ts|, 2
  {
    hide ParseUnit, RightUnit, Tidy, SpellUnit;
    var u := UnitRead(ts, first);
    var (x, ts1) := ParseUnit(ts, first).value;
    if !IsOperator(Head(ts1)) || n >= LOOP_LIMIT {
      us := [u];
      assert us[1..] == [] && SpellUnits([]) == [] && SpellUnit(u) + [] == SpellUnit(u) && UnitsOf([]) == [] && RightUnits([], false);
    } else {
      var others := UnitsRead(ts1, false, n + 1);
      us := [u] + others;
      assert us[1..] == others;
      Grouped(SpellUnit(u), SpellUnits(others), ParseUnits(ts, first, n).value.1);
    }
  }

  lemma {:induction false} ExpressionRead(ts: Stream) returns (e: ExpressionText)
    requires Tidy(ts) && |ts| <= 1_000_000 && ParseExpression(ts).Some?
    ensures var (x, rest) := ParseExpression(ts).value; RightExpression(e) && ExpressionOf(e) == x && ts == SpellExpression(e) + rest && Tidy(rest)
    decreases |ts|, 3
  {
    hide ParseUnits, Tidy, SpellUnits, RightUnits;
    var us := UnitsRead(ts, true, 0);
    e := ExpressionText(us);
  }

  lemma {:induction false} ArgumentsRead(ts: Stream, n: nat) returns (es: seq<ExpressionText>)
    requires Tidy(ts) && n + |ts| <= 1_000_000 && ParseArguments(ts, n).Some?
    ensures var (x, rest) := ParseArguments(ts, n).value;
            es != [] && RightArguments(es) && ArgumentsOf(es) == x && ts == SpellArguments(es) + rest && Tidy(rest) && Head(rest) == Lexing.RightParenthesis
    decreases |ts|, 4
  {
    hide ParseExpression, RightExpression, Tidy, SpellExpression;
    var e := ExpressionRead(ts);
    var (x, ts1) := ParseExpression(ts).value;
    if Head(ts1) == Lexing.RightParenthesis {
      es := [e];
      assert es[1..] == [] && SpellArguments([]) == [] && SpellExpression(e) + [] + [] == SpellExpression(e) && ArgumentsOf([]) == [] && RightArguments([]);
    } else {
      First(ts1);
      var others := ArgumentsRead(Tail(ts1), n + 1);
      es := [e] + others;
      assert es[1..] == others;
      var rest := ParseArguments(ts, n).value.1;
      Grouped([Mark(Lexing.Comma)], SpellArguments(others), rest);
      Grouped(SpellExpression(e), [Mark(Lexing.Comma)] + SpellArguments(others), rest);
      Grouped(SpellExpression(e), [Mark(Lexing.Comma)], SpellArguments(others));
    }
  }

  lemma {:induction false} CallRead(name: string, ts: Stream) returns (c: CallText)
    requires Tidy(ts) && |ts| <= 1_000_000 && ParseCall(name, ts).Some?
    ensures var (x, rest) := ParseCall(name, ts).value; RightCall(c) && CallOf(c) == x && [Name(name)] + ts == SpellCall(c) + rest && Tidy(rest)
    decreases |ts|, 0
  {
    hide ParseArguments, RightArguments, Tidy, SpellArguments;
    First(ts);
    var inner, rest := Tail(ts), ParseCall(name, ts).value.1;
    First(inner);
    if Head(inner) == Lexing.RightParenthesis {
      c := CallText(name, []);
      NoArguments();
    } else {
      var es := ArgumentsRead(inner, 0);
      c := CallText(name, es);
      First(ParseArguments(inner, 0).value.1);
    }
    CallSpelled(name, c.arguments, ts, inner, rest);
  }

  lemma {:induction false} NoArguments()
    ensures SpellArguments([]) == [] && ArgumentsOf([]) == [] && RightArguments([])
  {}

  lemma {:induction false} CallSpelled(name: string, es: seq<ExpressionText>, ts: Stream, inner: Stream, rest: Stream)
    requires ts == [Mark(Lexing.LeftParenthesis)] + inner && inner == SpellArguments(es) + ([Mark(Lexing.RightParenthesis)] + rest)
    ensures [Name(name)] + ts == SpellCall(CallText(name, es)) + rest
  {
    hide SpellArguments;
  }

  // ----- texts of statements -----

  datatype StatementText =
    | DeclareText(variable: Variable)
    | DefineText(variable: Variable, value: ExpressionText)
    | AssignText(stars: nat, target: string, value: ExpressionText)
    | CallLineText(stars: nat, call: CallText)
    | ChainText(chain: seq<BranchText>)

  // A statement, the token dropped behind it and the newlines behind that.
  datatype LineText = LineText(statement: StatementText, dropped: Lexing.Token, newlines: nat)

  // Newlines in front, and a branch; an else has no condition.
  datatype BranchText = BranchText(newlines: nat, condition: Option<ExpressionText>, block: BlockText)

  // Newlines in front of the brace, behind it, and in front of the closing one.
  datatype BlockText = BlockText(front: nat, inside: nat, lines: seq<LineText>, value: Option<ExpressionText>, behind: nat)

  function SpellStatement(s: StatementText): Stream
    decreases s, 1
  {
    match s
    case DeclareText(v) => PrintVariable(v)
    case DefineText(v, e) => PrintVariable(v) + ([Mark(Lexing.Equal)] + SpellExpression(e))
    case AssignText(stars, target, e) => Repeat(Lexing.Star, stars) + ([Name(target), Mark(Lexing.Equal)] + SpellExpression(e))
    case CallLineText(stars, call) => Repeat(Lexing.Star, stars) + SpellCall(call)
    case ChainText(chain) => SpellChain(chain, true)
  }

  function SpellLine(l: LineText): Stream
    decreases l, 1
  {
    SpellStatement(l.statement) + [l.dropped] + Repeat(Lexing.Newline, l.newlines)
  }

  function SpellLines(lines: seq<LineText>): Stream
    decreases lines, 0
  {
    if lines == [] then [] else SpellLine(lines[0]) + SpellLines(lines[1..])
  }

  function SpellChain(chain: seq<BranchText>, start: bool): Stream
    decreases chain, 0
  {
    if chain == [] then [] else SpellBranch(chain[0], start) + SpellChain(chain[1..], false)
  }

  function SpellBranch(b: BranchText, start: bool): Stream
    decreases b, 1
  {
    Repeat(Lexing.Newline, b.newlines) + (SpellCondition(b.condition, start) + SpellBlock(b.block))
  }

  function SpellCondition(e: Option<ExpressionText>, start: bool): Stream {
    if e.None? then [Mark(Lexing.Else)]
    else [Mark(if start then Lexing.If else Lexing.Elif), Mark(Lexing.LeftParenthesis)] + SpellExpression(e.value) + [Mark(Lexing.RightParenthesis)]
  }

  function SpellValue(e: Option<ExpressionText>): Stream { if e.None? then [] else [Mark(Lexing.Return)] + SpellExpression(e.value) }

  function SpellBlock(b: BlockText): Stream
    decreases b, 1
  {
    Repeat(Lexing.Newline, b.front) + ([Mark(Lexing.LeftCurlyBrace)] + (Repeat(Lexing.Newline, b.inside) + (SpellLines(b.lines)
    + (SpellValue(b.value) + (Repeat(Lexing.Newline, b.behind) + [Mark(Lexing.RightCurlyBrace)])))))
  }

  function StatementsOf(s: StatementText): seq<Statement>
    decreases s, 1
  {
    match s
    case DeclareText(v) => [Declaration(v)]
    case DefineText(v, e) => [Declaration(v), Assignment(v.name, 0, ExpressionOf(e))]
    case AssignText(stars, target, e) => [Assignment(target, stars, ExpressionOf(e))]
    case CallLineText(_, call) => [CallStatement(CallOf(call))]
    case ChainText(chain) => [Conditional(ChainOf(chain))]
  }

  function LinesOf(lines: seq<LineText>): seq<Statement>
    decreases lines, 0
  {
    if lines == [] then [] else LineOf(lines[0]) + LinesOf(lines[1..])
  }

  function LineOf(l: LineText): seq<Statement>
    decreases l, 1
  {
    StatementsOf(l.statement)
  }

  function ChainOf(chain: seq<BranchText>): seq<Branch>
    decreases chain, 0
  {
    if chain == [] then [] else [BranchOf(chain[0])] + ChainOf(chain[1..])
  }

  function BranchOf(b: BranchText): Branch
    decreases b, 1
  {
    Branch(OptionalOf(b.condition), BlockOf(b.block))
  }

  function OptionalOf(e: Option<ExpressionText>): Option<Expression> { if e.None? then None else Some(ExpressionOf(e.value)) }

  function BlockOf(b: BlockText): Block
    decreases b, 1
  {
    Block(LinesOf(b.lines), OptionalOf(b.value))
  }

  ghost predicate RightVariable(v: Variable) { v.typ.dataType != NoType && (v.typ.isPointer <==> v.typ.pointerDepth > 0) }

  ghost predicate RightOptional(e: Option<ExpressionText>) { e.Some? ==> RightExpression(e.value) }

  ghost predicate RightStatement(s: StatementText)
    decreases s, 1
  {
    match s
    case DeclareText(v) => RightVariable(v)
    case DefineText(v, e) => RightVariable(v) && RightExpression(e)
    case AssignText(_, _, e) => RightExpression(e)
    case CallLineText(_, call) => RightCall(call)
    case ChainText(chain) => chain != [] && chain[0].newlines == 0 && RightChain(chain, true)
  }

  // A declaration or assignment has a newline behind it.
  ghost predicate RightLine(l: LineText)
    decreases l, 1
  {
    RightStatement(l.statement) && (l.statement.DeclareText? || l.statement.DefineText? || l.statement.AssignText? ==> l.dropped == Lexing.NEWLINE)
  }

  ghost predicate RightLines(lines: seq<LineText>)
    decreases lines, 0
  {
    lines == [] || (RightLine(lines[0]) && RightLines(lines[1..]))
  }

  // An else is never first, and every later branch begins on a new line.
  ghost predicate RightChain(chain: seq<BranchText>, start: bool)
    decreases chain, 0
  {
    chain == [] || ((if start then chain[0].condition.Some? else chain[0].newlines > 0) && RightBranch(chain[0]) && RightChain(chain[1..], false))
  }

  ghost predicate RightBranch(b: BranchText)
    decreases b, 1
  {
    RightOptional(b.condition) && RightBlock(b.block)
  }

  ghost predicate RightBlock(b: BlockText)
    decreases b, 1
  {
    RightLines(b.lines) && RightOptional(b.value) && (b.value.None? ==> b.behind == 0)
  }

  // ----- every block that is read -----

  lemma {:induction false} SkipTurn(ts: Stream, n: nat)
    ensures var next := Tail(ts);
            SkipLoop(ts, n) == if Head(next) != Lexing.Newline || n > LOOP_LIMIT then next else SkipLoop(next, n + 1)
  {}

  lemma {:induction false} OneMore(t: Kind, k: nat, rest: Stream)
    ensures [Mark(t)] + (Repeat(t, k) + rest) == Repeat(t, k + 1) + rest
  {}

  lemma {:induction false} LoopSkipped(ts: Stream, n: nat) returns (k: nat)
    requires Tidy(ts)
    ensures Tail(ts) == Repeat(Lexing.Newline, k) + SkipLoop(ts, n) && Tidy(SkipLoop(ts, n))
    decreases |ts|
  {
    hide Tidy, SkipLoop;
    var next := Tail(ts);
    First(ts);
    SkipTurn(ts, n);
    if Head(next) != Lexing.Newline || n > LOOP_LIMIT {
      k := 0;
      assert [] + next == next;
    } else {
      First(next);
      k := LoopSkipped(next, n + 1);
      OneMore(Lexing.Newline, k, SkipLoop(ts, n));
      k := k + 1;
    }
  }

  lemma {:induction false} Skipped(ts: Stream) returns (k: nat)
    requires Tidy(ts)
    ensures ts == Repeat(Lexing.Newline, k) + SkipNewlines(ts) && Tidy(SkipNewlines(ts)) && (Head(ts) == Lexing.Newline <==> k > 0)
  {
    hide Tidy;
    if Head(ts) != Lexing.Newline {
      k := 0;
      assert [] + ts == ts;
    } else {
      var m := LoopSkipped(ts, 0);
      k := m + 1;
      First(ts);
      Grouped([Mark(Lexing.Newline)], Repeat(Lexing.Newline, m), SkipLoop(ts, 0));
    }
  }

  lemma {:induction false} DepthTurn(ts: Stream, depth: nat)
    requires depth + |ts| <= 1_000_000
    ensures DepthLoop(ts, depth) == if Head(Tail(ts)) != Lexing.Ampersand then (depth, Tail(ts)) else DepthLoop(Tail(ts), depth + 1)
  {}

  lemma {:induction false} DepthRead(ts: Stream, depth: nat) returns (k: nat)
    requires Tidy(ts) && Head(ts) == Lexing.Ampersand && depth + |ts| <= 1_000_000
    ensures var (d, rest) := DepthLoop(ts, depth); k > 0 && d == depth + k - 1 && ts == Repeat(Lexing.Ampersand, k) + rest && Tidy(rest)
    decreases |ts|
  {
    hide Tidy, DepthLoop, Repeat;
    var next, rest := Tail(ts), DepthLoop(ts, depth).1;
    First(ts);
    DepthTurn(ts, depth);
    if Head(next) != Lexing.Ampersand {
      k := 0;
      NoneOf(Lexing.Ampersand, rest);
    } else {
      First(next);
      k := DepthRead(next, depth + 1);
    }
    OneMore(Lexing.Ampersand, k, rest);
    k := k + 1;
  }

  lemma {:induction false} NoneOf(t: Kind, rest: Stream)
    ensures Repeat(t, 0) + rest == rest
  {}

  lemma {:induction false} VariableRead(ts: Stream) returns (v: Variable)
    requires Tidy(ts) && |ts| <= 1_000_000 && ParseVariable(ts).Some?
    ensures var (x, rest) := ParseVariable(ts).value; RightVariable(x) && v == x && ts == PrintVariable(v) + rest && Tidy(rest)
  {
    hide Tidy, DepthLoop;
    var ts1 := Tail(ts);
    First(ts);
    First(ts1);
    var (x, rest) := ParseVariable(ts).value;
    v := x;
    var kind := [Mark(TypeKind(v.typ.dataType))];
    assert TypeKind(v.typ.dataType) == Head(ts);
    var ts2 := ParseType(ts).value.1;
    if Head(ts1) == Lexing.Ampersand {
      var k := DepthRead(ts1, 1);
      assert k == v.typ.pointerDepth;
    } else {
      assert [] + ts1 == ts1;
    }
    First(ts2);
    var marks := Repeat(Lexing.Ampersand, v.typ.pointerDepth);
    assert ts == kind + (marks + ([Name(v.name)] + rest));
    Grouped(marks, [Name(v.name)], rest);
    Grouped(kind, marks + [Name(v.name)], rest);
    Grouped(kind, marks, [Name(v.name)]);
  }

  lemma {:induction false} AssignedRead(ts: Stream) returns (e: ExpressionText)
    requires Tidy(ts) && |ts| <= 1_000_000 && ParseAssigned(ts).Some?
    ensures var (x, rest) := ParseAssigned(ts).value;
            && RightExpression(e) && ExpressionOf(e) == x && ts == [Mark(Lexing.Equal)] + SpellExpression(e) + rest
            && Tidy(rest) && Head(rest) == Lexing.Newline
  {
    hide Tidy, ParseExpression, RightExpression, SpellExpression;
    First(ts);
    e := ExpressionRead(Tail(ts));
    Grouped([Mark(Lexing.Equal)], SpellExpression(e), ParseAssigned(ts).value.1);
  }

  ghost predicate StatementTold(s: StatementText, ts: Stream, ss: seq<Statement>, rest: Stream) {
    && RightStatement(s) && StatementsOf(s) == ss && ts == SpellStatement(s) + rest && Tidy(rest)
    && (s.DeclareText? || s.DefineText? || s.AssignText? ==> Head(rest) == Lexing.Newline)
  }

  lemma {:induction false} StarsRead(ts: Stream, stars: nat, n: nat) returns (k: nat)
    requires Tidy(ts)
    ensures var (m, rest) := StarLoop(ts, stars, n); m == stars + k && ts == Repeat(Lexing.Star, k) + rest && Tidy(rest)
    decreases |ts|
  {
    hide Tidy;
    First(ts);
    assert Repeat(Lexing.Star, 1) == [Mark(Lexing.Star)] + Repeat(Lexing.Star, 0);
    if Head(ts) != Lexing.Star {
      k := 0;
      assert [] + ts == ts;
    } else if n >= LOOP_LIMIT {
      k := 1;
    } else {
      var m := StarsRead(Tail(ts), stars + 1, n + 1);
      k := m + 1;
      Grouped([Mark(Lexing.Star)], Repeat(Lexing.Star, m), StarLoop(ts, stars, n).1);
    }
  }

  // Behind k stars.
  lemma {:induction false} CallOrAssignmentRead(all: Stream, ts: Stream, stars: nat) returns (s: StatementText)
    requires Tidy(ts) && |ts| <= 1_000_000 && ParseCallOrAssignment(ts, stars).Some? && all == Repeat(Lexing.Star, stars) + ts
    ensures var (ss, rest) := ParseCallOrAssignment(ts, stars).value; StatementTold(s, all, ss, rest)
  {
    hide Tidy, ParseAssigned, ParseCall, SpellCall, SpellExpression, RightExpression, RightCall;
    First(ts);
    var marks, rest := Repeat(Lexing.Star, stars), ParseCallOrAssignment(ts, stars).value.1;
    if Head(Tail(ts)) == Lexing.Equal {
      var e := AssignedRead(Tail(ts));
      s := AssignText(stars, Value(ts), e);
      assert [Name(Value(ts)), Mark(Lexing.Equal)] == [Name(Value(ts))] + [Mark(Lexing.Equal)];
      Grouped([Name(Value(ts))], [Mark(Lexing.Equal)] + SpellExpression(e), rest);
      Grouped([Name(Value(ts))], [Mark(Lexing.Equal)], SpellExpression(e));
      Grouped(marks, [Name(Value(ts)), Mark(Lexing.Equal)] + SpellExpression(e), rest);
    } else {
      var c := CallRead(Value(ts), Tail(ts));
      s := CallLineText(stars, c);
      Grouped(marks, SpellCall(c), rest);
    }
  }

  lemma {:induction false} DeclarationRead(ts: Stream) returns (s: StatementText)
    requires Tidy(ts) && |ts| <= 1_000_000 && ParseDeclaration(ts).Some?
    ensures var (ss, rest) := ParseDeclaration(ts).value; StatementTold(s, ts, ss, rest)
  {
    hide Tidy, ParseVariable, ParseAssigned, PrintVariable, SpellExpression, RightExpression, RightVariable;
    var v := VariableRead(ts);
    var ts1 := ParseVariable(ts).value.1;
    if Head(ts1) == Lexing.Equal {
      var e := AssignedRead(ts1);
      s := DefineText(v, e);
      Grouped(PrintVariable(v), [Mark(Lexing.Equal)] + SpellExpression(e), ParseDeclaration(ts).value.1);
    } else {
      s := DeclareText(v);
    }
  }

  lemma {:induction false} StatementRead(ts: Stream) returns (s: StatementText)
    requires Tidy(ts) && |ts| <= 1_000_000 && ParseStatement(ts).Some?
    ensures var (ss, rest) := ParseStatement(ts).value; StatementTold(s, ts, ss, rest)
    decreases |ts|, 4
  {
    hide Tidy, StarLoop, ParseCallOrAssignment, ParseGroup, ParseDeclaration, RightChain, SpellChain;
    if Head(ts) == Lexing.Star {
      var k := StarsRead(ts, 0, 0);
      var ts1 := StarLoop(ts, 0, 0).1;
      s := CallOrAssignmentRead(ts, ts1, k);
    } else if Head(ts) == Lexing.If {
      var chain := GroupRead(ts, true);
      s := ChainText(chain);
    } else if Head(ts) == Lexing.Identifier {
      assert Repeat(Lexing.Star, 0) + ts == ts;
      s := CallOrAssignmentRead(ts, ts, 0);
    } else {
      s := DeclarationRead(ts);
    }
  }

  lemma {:induction false} GroupRead(ts: Stream, start: bool) returns (chain: seq<BranchText>)
    requires Tidy(ts) && |ts| <= 1_000_000 && ParseGroup(ts, start).Some? && (start || Head(ts) == Lexing.Newline)
    ensures var (x, rest) := ParseGroup(ts, start).value;
            && chain != [] && RightChain(chain, start) && ChainOf(chain) == x && ts == SpellChain(chain, start) + rest && Tidy(rest)
            && (Head(ts) == Lexing.Newline <==> chain[0].newlines > 0)
    decreases |ts|, 3
  {
    hide Tidy, ParseBranch, SkipNewlines, Ahead, SpellBranch, RightBranch;
    var k := Skipped(ts);
    var ts0, rest := SkipNewlines(ts), ParseGroup(ts, start).value.1;
    var b := BranchRead(ts, ts0, k, start);
    var (x, ts1) := ParseBranch(ts0, start).value;
    if Ahead(ts1) == Lexing.Elif || Ahead(ts1) == Lexing.Else {
      LaterBranch(ts1);
      var others := GroupRead(ts1, false);
      chain := [b] + others;
      assert chain[1..] == others;
      Grouped(SpellBranch(b, start), SpellChain(others, false), rest);
    } else {
      chain := [b];
      LastOfChain(b, start);
    }
  }

  // The lookahead has not seen a branch on the same line.
  lemma {:induction false} LaterBranch(ts: Stream)
    requires |ts| <= 1_000_000 && (Ahead(ts) == Lexing.Elif || Ahead(ts) == Lexing.Else) && ParseGroup(ts, false).Some?
    ensures Head(ts) == Lexing.Newline
  {
    hide ParseBranch, SkipNewlines;
    NewlineRuns.SkipStrips(ts);
    assert ParseBranch(SkipNewlines(ts), false).Some?;
    BranchAhead(ts);
  }

  lemma {:induction false} BranchAhead(ts: Stream)
    requires |ts| <= 1_000_000
    ensures ParseBranch(ts, false).Some? ==> Ahead(ts) == Lexing.LeftParenthesis || Ahead(ts) == Lexing.LeftCurlyBrace
  {
    hide ParseBlock, ParseExpression;
    BlockAhead(Tail(ts));
  }

  lemma {:induction false} BlockAhead(ts: Stream)
    requires |ts| <= 1_000_000
    ensures ParseBlock(ts).Some? ==> Lexing.FirstNotNewline(ts).typ == Lexing.LeftCurlyBrace
  {
    hide ParseStatements, ParseReturn, SkipNewlines;
    NewlineRuns.SkipStrips(ts);
    NewlineRuns.FirstIsStripped(ts);
  }

  lemma {:induction false} LastOfChain(b: BranchText, start: bool)
    ensures SpellChain([b], start) == SpellBranch(b, start) && ChainOf([b]) == [BranchOf(b)]
    ensures RightChain([b], start) <==> (if start then b.condition.Some? else b.newlines > 0) && RightBranch(b)
  {
    assert [b][1..] == [] && SpellChain([], false) == [] && ChainOf([]) == [] && RightChain([], false);
  }

  // Behind k newlines.
  lemma {:induction false} BranchRead(all: Stream, ts: Stream, k: nat, start: bool) returns (b: BranchText)
    requires Tidy(ts) && |ts| <= 1_000_000 && ParseBranch(ts, start).Some? && all == Repeat(Lexing.Newline, k) + ts
    ensures var (x, rest) := ParseBranch(ts, start).value;
            && RightBranch(b) && b.newlines == k && (start ==> b.condition.Some?) && BranchOf(b) == x && all == SpellBranch(b, start) + rest && Tidy(rest)
    decreases |ts|, 2
  {
    hide Tidy, ParseBlock, ParseExpression, SpellBlock, RightBlock, SpellExpression, RightExpression, Repeat;
    First(ts);
    var rest := ParseBranch(ts, start).value.1;
    if Head(ts) == Lexing.Else {
      var block := BlockRead(Tail(ts));
      b := BranchText(k, None, block);
    } else {
      var inner := Tail(Tail(ts));
      First(Tail(ts));
      var e := ExpressionRead(inner);
      var ts1 := ParseExpression(inner).value.1;
      First(ts1);
      var block := BlockRead(Tail(ts1));
      b := BranchText(k, Some(e), block);
      ConditionSpelled(ts, e, start, Tail(ts1));
    }
    Grouped(SpellCondition(b.condition, start), SpellBlock(b.block), rest);
    Grouped(Repeat(Lexing.Newline, k), SpellCondition(b.condition, start) + SpellBlock(b.block), rest);
  }

  lemma {:induction false} ConditionSpelled(ts: Stream, e: ExpressionText, start: bool, behind: Stream)
    requires ts == [Mark(if start then Lexing.If else Lexing.Elif)]
                   + ([Mark(Lexing.LeftParenthesis)] + (SpellExpression(e) + ([Mark(Lexing.RightParenthesis)] + behind)))
    ensures ts == SpellCondition(Some(e), start) + behind
  {
    hide SpellExpression;
  }

  lemma {:induction false} LinesRead(ts: Stream, n: nat) returns (lines: seq<LineText>)
    requires Tidy(ts) && n + |ts| <= 1_000_000 && StatementLoop(ts, n).Some?
    ensures var (x, rest) := StatementLoop(ts, n).value;
            RightLines(lines) && LinesOf(lines) == x && ts == SpellLines(lines) + rest && Tidy(rest) && EndsStatements(Head(rest))
    decreases |ts|, 5, 1
  {
    hide Tidy, ParseStatement, SkipNewlines, SpellLine, RightLine, LineOf;
    var (x, rest) := StatementLoop(ts, n).value;
    var (ss, ts1) := ParseStatement(ts).value;
    var ts2 := SkipNewlines(Tail(ts1));
    LineEnds(ts1, n);
    var l := LineRead(ts);
    if EndsStatements(Head(ts2)) || n >= LOOP_LIMIT {
      lines := [l];
      LastOfLines(l);
    } else {
      var others := LinesRead(ts2, n + 1);
      lines := [l] + others;
      assert lines[1..] == others;
      Grouped(SpellLine(l), SpellLines(others), rest);
    }
  }

  // Nothing is dropped at the end of file: no statement can follow.
  lemma {:induction false} LineEnds(ts1: Stream, n: nat)
    ensures ts1 == [] ==> !EndsStatements(Head(SkipNewlines(Tail(ts1)))) && StatementLoop(SkipNewlines(Tail(ts1)), n + 1) == None
  {
    if ts1 == [] {
      assert SkipNewlines([]) == [] && ParseVariable([]) == None && ParseStatement([]) == None;
    }
  }

  lemma {:induction false} LastOfLines(l: LineText)
    ensures SpellLines([l]) == SpellLine(l) && LinesOf([l]) == LineOf(l) && (RightLines([l]) <==> RightLine(l))
  {
    assert [l][1..] == [] && SpellLines([]) == [] && LinesOf([]) == [] && RightLines([]);
  }

  lemma {:induction false} LineRead(ts: Stream) returns (l: LineText)
    requires Tidy(ts) && |ts| <= 1_000_000 && ParseStatement(ts).Some? && ParseStatement(ts).value.1 != []
    ensures var (ss, ts1) := ParseStatement(ts).value; var rest := SkipNewlines(Tail(ts1));
            RightLine(l) && LineOf(l) == ss && ts == SpellLine(l) + rest && Tidy(rest)
    decreases |ts|, 5, 0
  {
    hide Tidy, ParseStatement, SkipNewlines, RightStatement, SpellStatement, StatementsOf;
    var ts1 := ParseStatement(ts).value.1;
    var s := StatementRead(ts);
    First(ts1);
    var k := Skipped(Tail(ts1));
    l := LineText(s, ts1[0], k);
    var rest := SkipNewlines(Tail(ts1));
    assert ts1 == [ts1[0]] + Tail(ts1);
    Grouped([ts1[0]], Repeat(Lexing.Newline, k), rest);
    Grouped(SpellStatement(s), [ts1[0]] + Repeat(Lexing.Newline, k), rest);
    Grouped(SpellStatement(s), [ts1[0]], Repeat(Lexing.Newline, k));
  }

  lemma {:induction false} StatementsRead(ts: Stream) returns (lines: seq<LineText>)
    requires Tidy(ts) && |ts| <= 1_000_000 && ParseStatements(ts).Some? && Head(ts) != Lexing.Newline
    ensures var (x, rest) := ParseStatements(ts).value;
            RightLines(lines) && LinesOf(lines) == x && ts == SpellLines(lines) + rest && Tidy(rest) && EndsStatements(Head(rest))
    decreases |ts|, 6
  {
    hide Tidy, StatementLoop;
    if EndsStatements(Head(ts)) {
      lines := [];
      assert [] + ts == ts;
    } else {
      lines := LinesRead(ts, 0);
    }
  }

  lemma {:induction false} ValueRead(ts: Stream) returns (e: Option<ExpressionText>)
    requires Tidy(ts) && |ts| <= 1_000_000 && ParseReturn(ts).Some?
    ensures var (x, rest) := ParseReturn(ts).value;
            RightOptional(e) && OptionalOf(e) == x && ts == SpellValue(e) + rest && Tidy(rest) && (e.None? ==> Head(ts) != Lexing.Return && rest == ts)
  {
    hide Tidy, ParseExpression, SpellExpression, RightExpression;
    First(ts);
    if Head(ts) != Lexing.Return {
      e := None;
      assert [] + ts == ts;
    } else {
      var x := ExpressionRead(Tail(ts));
      e := Some(x);
      Grouped([Mark(Lexing.Return)], SpellExpression(x), ParseReturn(ts).value.1);
    }
  }

  // Every block that is read, of at most a million tokens: the tokens are those
  // of a text that follows the rules, the text is one of the tree that is read,
  // and what is left is what was behind it.
  lemma {:induction false} BlockRead(ts: Stream) returns (b: BlockText)
    requires Tidy(ts) && |ts| <= 1_000_000 && ParseBlock(ts).Some?
    ensures var (x, rest) := ParseBlock(ts).value; RightBlock(b) && BlockOf(b) == x && ts == SpellBlock(b) + rest && Tidy(rest)
    decreases |ts|, 1
  {
    hide Tidy, ParseBlock, ParseStatements, ParseReturn, SkipNewlines, SpellLines, RightLines, SpellValue, RightOptional, Repeat, LinesOf, OptionalOf,
         SpellBlock, RightBlock, BlockOf, Head, Tail;
    BlockParts(ts);
    var front := Skipped(ts);
    var ts0 := SkipNewlines(ts);
    First(ts0);
    var inside := Skipped(Tail(ts0));
    var ts1 := SkipNewlines(Tail(ts0));
    NotNewline(Tail(ts0));
    var lines := StatementsRead(ts1);
    var ts2 := ParseStatements(ts1).value.1;
    var value := ValueRead(ts2);
    var ts3 := ParseReturn(ts2).value.1;
    var behind := Skipped(ts3);
    First(SkipNewlines(ts3));
    b := BlockText(front, inside, lines, value, behind);
    BlockIs(b);
    BlockSpelled(b, ParseBlock(ts).value.1);
  }

  lemma {:induction false} BlockIs(b: BlockText)
    ensures RightBlock(b) <==> RightLines(b.lines) && RightOptional(b.value) && (b.value.None? ==> b.behind == 0)
    ensures BlockOf(b) == Block(LinesOf(b.lines), OptionalOf(b.value))
  {}

  // What a block is read from.
  lemma {:induction false} BlockParts(ts: Stream)
    requires ParseBlock(ts).Some?
    ensures var ts0 := SkipNewlines(ts); var ts1 := SkipNewlines(Tail(ts0));
            && Head(ts0) == Lexing.LeftCurlyBrace && ParseStatements(ts1).Some?
            && var (ss, ts2) := ParseStatements(ts1).value;
               && ParseReturn(ts2).Some?
               && var (value, ts3) := ParseReturn(ts2).value;
                  && Head(SkipNewlines(ts3)) == Lexing.RightCurlyBrace && ParseBlock(ts) == Some((Block(ss, value), Tail(SkipNewlines(ts3))))
  {
    hide ParseStatements, ParseReturn, SkipNewlines;
  }

  lemma {:induction false} NotNewline(ts: Stream)
    requires |ts| <= 1_000_000
    ensures Head(SkipNewlines(ts)) != Lexing.Newline
  {
    if Head(ts) == Lexing.Newline {
      LoopEnds(ts, 0);
    }
  }

  lemma {:induction false} LoopEnds(ts: Stream, n: nat)
    requires n + |ts| <= 1_000_000
    ensures Head(SkipLoop(ts, n)) != Lexing.Newline
    decreases |ts|
  {
    if Head(Tail(ts)) == Lexing.Newline {
      LoopEnds(Tail(ts), n + 1);
    }
  }

  lemma {:induction false} BlockSpelled(b: BlockText, rest: Stream)
    ensures Repeat(Lexing.Newline, b.front) + ([Mark(Lexing.LeftCurlyBrace)] + (Repeat(Lexing.Newline, b.inside) + (SpellLines(b.lines)
            + (SpellValue(b.value) + (Repeat(Lexing.Newline, b.behind) + ([Mark(Lexing.RightCurlyBrace)] + rest)))))) == SpellBlock(b) + rest
  {
    hide Repeat, SpellLines, SpellValue;
  }

  // ----- every item that is read -----

  lemma {:induction false} ParametersRead(ts: Stream, n: nat)
    requires Tidy(ts) && n + |ts| <= 1_000_000 && ParseParameters(ts, n).Some?
    ensures var (ps, rest) := ParseParameters(ts, n).value;
            && ps != [] && (forall p :: p in ps ==> RightVariable(p)) && ts == PrintParameters(ps) + rest
            && Tidy(rest) && Head(rest) == Lexing.RightParenthesis
    decreases |ts|
  {
    hide Tidy, ParseVariable, PrintVariable, RightVariable;
    var v := VariableRead(ts);
    var ts1 := ParseVariable(ts).value.1;
    var (ps, rest) := ParseParameters(ts, n).value;
    if Head(ts1) == Lexing.RightParenthesis {
      assert ps[1..] == [] && PrintParameters([]) == [] && PrintVariable(v) + [] + [] == PrintVariable(v);
    } else {
      First(ts1);
      ParametersRead(Tail(ts1), n + 1);
      var others := ParseParameters(Tail(ts1), n + 1).value.0;
      assert ps[1..] == others;
      Grouped([Mark(Lexing.Comma)], PrintParameters(others), rest);
      Grouped(PrintVariable(v), [Mark(Lexing.Comma)] + PrintParameters(others), rest);
      Grouped(PrintVariable(v), [Mark(Lexing.Comma)], PrintParameters(others));
    }
  }

  // `[ ]`, or a `[` that nothing closes, or nothing.
  predicate Directive(marks: Stream) {
    marks == [] || marks == [Mark(Lexing.LeftBracket)] || marks == [Mark(Lexing.LeftBracket), Mark(Lexing.RightBracket)]
  }

  lemma {:induction false} DirectiveRead(ts: Stream) returns (marks: Stream)
    requires Tidy(ts)
    ensures Directive(marks) && ts == marks + ParseDirective(ts).1
  {
    First(ts);
    First(Tail(ts));
    if Head(ts) != Lexing.LeftBracket {
      marks := [];
    } else if Head(Tail(ts)) != Lexing.RightBracket {
      marks := [Mark(Lexing.LeftBracket)];
    } else {
      marks := [Mark(Lexing.LeftBracket), Mark(Lexing.RightBracket)];
    }
  }

  function SpellInitial(c: Option<Items.Constant>, kind: Kind): Stream {
    match c
    case None => []
    case Some(ConstInteger(digits)) => [Mark(Lexing.Equal), Lexing.Token(kind, digits)]
    case Some(ConstString(text)) => [Mark(Lexing.Equal), Lexing.Token(kind, text)]
  }

  // A global variable is read only from a type, a name and at most one literal,
  // with a newline behind them.
  lemma {:induction false} GlobalRead(ts: Stream) returns (kind: Kind)
    requires Tidy(ts) && |ts| <= 1_000_000 && ParseTop(ts).Some? && ParseTop(ts).value.0.GlobalTop?
    ensures var (GlobalTop(v, c), rest) := ParseTop(ts).value;
            && RightVariable(v) && (c.Some? ==> c.value.ConstInteger? && (kind == Lexing.IntegerLiteral || kind == Lexing.StringLiteral))
            && ts == PrintVariable(v) + SpellInitial(c, kind) + rest && Head(rest) == Lexing.Newline
  {
    hide Tidy, ParseVariable, PrintVariable, ParseFunction, ParseGlobal, RightVariable;
    var v := VariableRead(ts);
    var ts1 := ParseVariable(ts).value.1;
    if Head(ts1) == Lexing.LeftParenthesis {
      First(ts1);
      var marks, behind := ParametersAndMarks(v, Tail(ts1));
    }
    kind := InitialRead(v, ts1);
    var (top, rest) := ParseTop(ts).value;
    Grouped(PrintVariable(v), SpellInitial(top.initial, kind), rest);
  }

  lemma {:induction false} InitialIs(v: Variable, ts: Stream)
    requires ParseGlobal(v, ts).Some?
    ensures var ts1 := Tail(ts);
            if Head(ts) == Lexing.Equal then
              && (Head(ts1) == Lexing.IntegerLiteral || Head(ts1) == Lexing.StringLiteral) && Head(Tail(ts1)) == Lexing.Newline
              && ParseGlobal(v, ts) == Some((GlobalTop(v, Some(Items.ConstInteger(Value(ts1)))), Tail(ts1)))
            else Head(ts) == Lexing.Newline && ParseGlobal(v, ts) == Some((GlobalTop(v, None), ts))
  {}

  lemma {:induction false} InitialRead(v: Variable, ts: Stream) returns (kind: Kind)
    requires Tidy(ts)
    ensures ParseGlobal(v, ts).Some? ==>
              && ParseGlobal(v, ts).value.0.GlobalTop?
              && var (GlobalTop(x, c), rest) := ParseGlobal(v, ts).value;
                 && x == v && (c.Some? ==> c.value.ConstInteger? && (kind == Lexing.IntegerLiteral || kind == Lexing.StringLiteral))
                 && ts == SpellInitial(c, kind) + rest && Head(rest) == Lexing.Newline
  {
    hide Tidy, ParseGlobal;
    var ts1 := Tail(ts);
    kind := Head(ts1);
    if ParseGlobal(v, ts).Some? {
      InitialIs(v, ts);
      First(ts);
      First(ts1);
      if Head(ts) == Lexing.Equal {
        var marks := SpellInitial(Some(Items.ConstInteger(Value(ts1))), kind);
        assert marks == [Mark(Lexing.Equal)] + [Lexing.Token(kind, Value(ts1))];
        Grouped([Mark(Lexing.Equal)], [Lexing.Token(kind, Value(ts1))], Tail(ts1));
      } else {
        assert [] + ts == ts;
      }
    }
  }

  // A function is read only from a type, a name, parameters in parentheses and
  // a directive; a body is what begins behind them, and is skipped.
  lemma {:induction false} HeaderRead(ts: Stream) returns (marks: Stream, behind: Stream)
    requires Tidy(ts) && |ts| <= 1_000_000 && ParseTop(ts).Some? && ParseTop(ts).value.0.FunctionTop?
    ensures var (FunctionTop(name, s, start), rest) := ParseTop(ts).value;
            && RightVariable(Variable(s.typ, name)) && (forall p :: p in s.parameters ==> RightVariable(p)) && Directive(marks)
            && ts == PrintVariable(Variable(s.typ, name))
                     + ([Mark(Lexing.LeftParenthesis)] + (PrintParameters(s.parameters) + ([Mark(Lexing.RightParenthesis)] + (marks + behind))))
            && (start.Some? <==> Head(behind) == Lexing.LeftCurlyBrace || Ahead(behind) == Lexing.LeftCurlyBrace)
            && if start.Some? then start == Some(behind) && SkipBody(behind) == Some(rest) else rest == behind
  {
    hide Tidy, ParseVariable, PrintVariable, ParseInitial, RightVariable, ParseFunction, PrintParameters, SkipBody, Ahead, ParseDirective;
    var v := VariableRead(ts);
    var ts1 := ParseVariable(ts).value.1;
    First(ts1);
    marks, behind := ParametersAndMarks(v, Tail(ts1));
  }

  // Behind the opening parenthesis.
  lemma {:induction false} ParametersAndMarks(v: Variable, ts: Stream) returns (marks: Stream, behind: Stream)
    requires Tidy(ts) && |ts| <= 1_000_000 && ParseFunction(v, ts).Some?
    ensures ParseFunction(v, ts).value.0.FunctionTop?
    ensures var (FunctionTop(name, s, start), rest) := ParseFunction(v, ts).value;
            && name == v.name && s.typ == v.typ && (forall p :: p in s.parameters ==> RightVariable(p)) && Directive(marks)
            && ts == PrintParameters(s.parameters) + ([Mark(Lexing.RightParenthesis)] + (marks + behind))
            && (start.Some? <==> Head(behind) == Lexing.LeftCurlyBrace || Ahead(behind) == Lexing.LeftCurlyBrace)
            && if start.Some? then start == Some(behind) && SkipBody(behind) == Some(rest) else rest == behind
  {
    hide Tidy, ParseVariable, RightVariable, ParseParameters, PrintParameters, SkipBody, Ahead, ParseDirective;
    First(ts);
    var ts1 := ts;
    if Head(ts) != Lexing.RightParenthesis {
      ParametersRead(ts, 0);
      ts1 := ParseParameters(ts, 0).value.1;
    } else {
      NoParameters(ts);
    }
    First(ts1);
    marks := DirectiveRead(Tail(ts1));
    behind := ParseDirective(Tail(ts1)).1;
  }

  lemma {:induction false} NoParameters(ts: Stream)
    ensures PrintParameters([]) + ts == ts
  {}
}
