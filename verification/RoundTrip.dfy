/**
  Parsing what was printed gives the tree back and stops right behind it.
 */
module RoundTrip {
  import opened Wrappers
  import opened Ast
  import Lexing
  import Prefixes
  import Items
  import Analysis
  import opened Grammar
  import opened Printer

  lemma {:induction false} HeadOf(t: Lexing.Token, rest: Stream)
    ensures Head([t] + rest) == t.typ && Value([t] + rest) == t.value && Tail([t] + rest) == rest
  {
    assert ([t] + rest)[1..] == rest;
  }

  lemma {:induction false} HeadTail<T>(s: seq<T>)
    requires s != []
    ensures s == [s[0]] + s[1..]
  {}

  // ----- operands -----

  lemma {:induction false} StarRead(more: Stream, step: int, n: nat)
    requires -0xffff < step <= 0 && n < LOOP_LIMIT
    ensures PrefixLoop([Mark(Lexing.Star)] + more, step, false, n) == PrefixLoop(more, step - 1, false, n + 1)
  {
    HeadOf(Mark(Lexing.Star), more);
    Prefixes.LimitTestExact(step - 1);
    assert PrefixNext(more, step - 1, false, n) == PrefixLoop(more, step - 1, false, n + 1);
  }

  lemma {:induction false} StarsRead(k: nat, rest: Stream, step: int, n: nat)
    requires Head(rest) != Lexing.Star && Head(rest) != Lexing.Ampersand && step <= 0 && -0xffff <= step - k && n + k <= LOOP_LIMIT
    ensures PrefixLoop(Repeat(Lexing.Star, k) + rest, step, false, n) == Some((step - k, rest))
    decreases k
  {
    if k == 0 {
      assert [] + rest == rest;
    } else {
      hide PrefixLoop, Head;
      var more := Repeat(Lexing.Star, k - 1) + rest;
      assert Repeat(Lexing.Star, k) + rest == [Mark(Lexing.Star)] + more;
      StarRead(more, step, n);
      StarsRead(k - 1, rest, step - 1, n + 1);
    }
  }

  lemma {:induction false} AmpersandRead(rest: Stream)
    requires Head(rest) != Lexing.Star && Head(rest) != Lexing.Ampersand
    ensures PrefixLoop([Mark(Lexing.Ampersand)] + rest, 0, false, 0) == Some((1, rest))
  {
    HeadOf(Mark(Lexing.Ampersand), rest);
    Prefixes.LimitTestExact(1);
    assert PrefixLoop(rest, 1, true, 1) == Some((1, rest));
    assert PrefixNext(rest, 1, true, 0) == Some((1, rest));
  }

  // Nothing that follows an operand may look like the rest of it.
  predicate AfterOperand(rest: Stream) { Head(rest) != Lexing.LeftParenthesis }

  lemma {:induction false} NameRead(ts: Stream, step: int, name: string, rest: Stream)
    requires PrefixLoop(ts, 0, false, 0) == Some((step, [Name(name)] + rest)) && AfterOperand(rest)
    ensures ParseOperand(ts) == Some((Operand.Identifier(name, Prefixes.NetIndirection(step), Prefixes.NetSteps(step)), rest))
  {
    hide PrefixLoop;
    HeadOf(Name(name), rest);
  }

  // The operators in front of a name.
  lemma {:induction false} PrefixRead(name: string, indirection: Indirection, steps: nat, rest: Stream) returns (step: int)
    requires PrintableOperand(Operand.Identifier(name, indirection, steps))
    ensures indirection == Prefixes.NetIndirection(step) && steps == Prefixes.NetSteps(step)
    ensures PrefixLoop(PrintOperand(Operand.Identifier(name, indirection, steps)) + rest, 0, false, 0) == Some((step, [Name(name)] + rest))
  {
    hide Repeat;
    var more := [Name(name)] + rest;
    HeadOf(Name(name), rest);
    match indirection
    case Plain => step := 0;
    case GetAddress =>
      step := 1;
      AmpersandRead(more);
      assert [Mark(Lexing.Ampersand), Name(name)] + rest == [Mark(Lexing.Ampersand)] + more;
    case GetValue =>
      step := 0 - steps as int;
      StarsRead(steps, more, 0, 0);
      assert (Repeat(Lexing.Star, steps) + [Name(name)]) + rest == Repeat(Lexing.Star, steps) + more;
  }

  lemma {:induction false} LiteralRead(o: Operand, rest: Stream)
    requires o.IntegerLiteral? || o.StringLiteral?
    ensures ParseOperand(PrintOperand(o) + rest) == Some((o, rest))
  {
    HeadOf(PrintOperand(o)[0], rest);
  }

  lemma {:induction false} NamedCall(ts: Stream, call: Call, rest: Stream)
    requires Head(ts) == Lexing.Identifier && Value(ts) == call.name && Head(Tail(ts)) == Lexing.LeftParenthesis
    requires ParseCall(call.name, Tail(ts)) == Some((call, rest))
    ensures ParseOperand(ts) == Some((CallOperand(call), rest))
  {
    hide ParseCall;
  }

  lemma {:induction false} OperandRead(o: Operand, rest: Stream)
    requires PrintableOperand(o) && AfterOperand(rest)
    ensures ParseOperand(PrintOperand(o) + rest) == Some((o, rest))
    decreases o, 1
  {
    hide ParseOperand, ParseCall, PrintCall, AfterOperand;
    match o
    case Identifier(name, indirection, steps) =>
      var step := PrefixRead(name, indirection, steps, rest);
      NameRead(PrintOperand(o) + rest, step, name, rest);
    case IntegerLiteral(_) => LiteralRead(o, rest);
    case StringLiteral(_) => LiteralRead(o, rest);
    case CallOperand(call) =>
      CallRead(call, rest);
      CallStarts(call, rest);
      NamedCall(PrintCall(call) + rest, call, rest);
  }

  lemma {:induction false} CallStarts(call: Call, rest: Stream)
    ensures var ts := PrintCall(call) + rest;
            && Head(ts) == Lexing.Identifier && Value(ts) == call.name && Head(Tail(ts)) == Lexing.LeftParenthesis
            && Tail(ts) == [Mark(Lexing.LeftParenthesis)] + (PrintArguments(call.parameters) + ([Mark(Lexing.RightParenthesis)] + rest))
  {
    var more := PrintArguments(call.parameters) + ([Mark(Lexing.RightParenthesis)] + rest);
    assert PrintCall(call) + rest == [Name(call.name)] + ([Mark(Lexing.LeftParenthesis)] + more);
    HeadOf(Name(call.name), [Mark(Lexing.LeftParenthesis)] + more);
    HeadOf(Mark(Lexing.LeftParenthesis), more);
  }

  lemma {:induction false} CallRead(call: Call, rest: Stream)
    requires PrintableCall(call)
    ensures ParseCall(call.name, Tail(PrintCall(call) + rest)) == Some((call, rest))
    decreases call, 1
  {
    var es, close := call.parameters, [Mark(Lexing.RightParenthesis)] + rest;
    CallStarts(call, rest);
    HeadOf(Mark(Lexing.LeftParenthesis), PrintArguments(es) + close);
    HeadOf(Mark(Lexing.RightParenthesis), rest);
    if es == [] {
      assert PrintArguments(es) + close == close;
    } else {
      ArgumentsStart(es, close);
      ArgumentsRead(es, close, 0);
    }
  }

  // The tokens an expression may begin with.
  predicate StartsOperand(t: Kind) {
    match t
    case Ampersand => true
    case Star => true
    case Identifier => true
    case IntegerLiteral => true
    case StringLiteral => true
    case _ => false
  }

  lemma {:induction false} OperandStarts(o: Operand, rest: Stream)
    requires PrintableOperand(o)
    ensures StartsOperand(Head(PrintOperand(o) + rest))
  {
    match o
    case CallOperand(call) => CallStarts(call, rest);
    case Identifier(name, GetValue, steps) =>
      assert PrintOperand(o) + rest == [Mark(Lexing.Star)] + (Repeat(Lexing.Star, steps - 1) + [Name(name)] + rest);
    case _ =>
  }

  lemma {:induction false} ExpressionStarts(e: Expression, rest: Stream)
    requires PrintableExpression(e)
    ensures StartsOperand(Head(PrintExpression(e) + rest))
  {
    var u, more := e.units[0], PrintUnits(e.units[1..]) + rest;
    assert PrintableUnits(e.units, true) && PrintableUnit(u, true);
    assert PrintUnit(u) == PrintOperand(u.operand);
    assert PrintExpression(e) + rest == PrintOperand(u.operand) + more;
    OperandStarts(u.operand, more);
  }

  lemma {:induction false} ArgumentsStart(es: seq<Expression>, rest: Stream)
    requires es != [] && PrintableArguments(es)
    ensures StartsOperand(Head(PrintArguments(es) + rest))
  {
    var more := (if |es| == 1 then [] else [Mark(Lexing.Comma)]) + PrintArguments(es[1..]) + rest;
    assert PrintArguments(es) + rest == PrintExpression(es[0]) + more;
    ExpressionStarts(es[0], more);
  }

  lemma {:induction false} ArgumentsRead(es: seq<Expression>, rest: Stream, n: nat)
    requires es != [] && PrintableArguments(es) && Head(rest) == Lexing.RightParenthesis && n + |es| <= LOOP_LIMIT
    ensures ParseArguments(PrintArguments(es) + rest, n) == Some((es, rest))
    decreases es, 0
  {
    if |es| == 1 {
      assert PrintArguments(es[1..]) == [] && PrintArguments(es) + rest == PrintExpression(es[0]) + rest;
      ExpressionRead(es[0], rest);
      assert es == [es[0]];
    } else {
      var others := PrintArguments(es[1..]) + rest;
      assert PrintArguments(es) + rest == PrintExpression(es[0]) + ([Mark(Lexing.Comma)] + others);
      HeadOf(Mark(Lexing.Comma), others);
      ExpressionRead(es[0], [Mark(Lexing.Comma)] + others);
      ArgumentsRead(es[1..], rest, n + 1);
      HeadTail(es);
    }
  }

  predicate AfterExpression(rest: Stream) { AfterOperand(rest) && !IsOperator(Head(rest)) }

  lemma {:induction false} UnitRead(u: Unit, rest: Stream, first: bool)
    requires PrintableUnit(u, first) && AfterOperand(rest)
    ensures ParseUnit(PrintUnit(u) + rest, first) == Some((u, rest))
    decreases u, 2
  {
    hide ParseOperand, PrintOperand;
    OperandRead(u.operand, rest);
    if first {
      assert PrintUnit(u) + rest == PrintOperand(u.operand) + rest;
    } else {
      var t := Mark(OperatorKind(u.operation.value));
      assert PrintUnit(u) + rest == [t] + (PrintOperand(u.operand) + rest);
      HeadOf(t, PrintOperand(u.operand) + rest);
    }
  }

  lemma {:induction false} UnitsRead(us: seq<Unit>, rest: Stream, first: bool, n: nat)
    requires us != [] && PrintableUnits(us, first) && AfterExpression(rest) && n + |us| <= LOOP_LIMIT
    ensures ParseUnits(PrintUnits(us) + rest, first, n) == Some((us, rest))
    decreases us, 0
  {
    hide ParseUnit, PrintUnit;
    var more := PrintUnits(us[1..]) + rest;
    assert PrintUnits(us) + rest == PrintUnit(us[0]) + more;
    if |us| == 1 {
      assert us[1..] == [] && more == rest && us == [us[0]];
      UnitRead(us[0], rest, first);
    } else {
      UnitsStart(us[1..], rest);
      UnitRead(us[0], more, first);
      UnitsRead(us[1..], rest, false, n + 1);
      HeadTail(us);
    }
  }

  lemma {:induction false} UnitsStart(us: seq<Unit>, rest: Stream)
    requires us != [] && PrintableUnits(us, false)
    ensures OperatorOf(Head(PrintUnits(us) + rest)).Some?
  {
    var t := Mark(OperatorKind(us[0].operation.value));
    var more := PrintOperand(us[0].operand) + PrintUnits(us[1..]) + rest;
    assert PrintUnits(us) + rest == [t] + more;
    HeadOf(t, more);
  }

  lemma {:induction false} ExpressionRead(e: Expression, rest: Stream)
    requires PrintableExpression(e) && AfterExpression(rest)
    ensures ParseExpression(PrintExpression(e) + rest) == Some((e, rest))
    decreases e, 1
  {
    UnitsRead(e.units, rest, true, 0);
  }

  // ----- declarations -----

  lemma {:induction false} DepthRead(k: nat, rest: Stream, depth: nat)
    requires Head(rest) != Lexing.Ampersand && depth + k < LOOP_LIMIT
    ensures DepthLoop([Mark(Lexing.Ampersand)] + (Repeat(Lexing.Ampersand, k) + rest), depth) == (depth + k, rest)
    decreases k
  {
    HeadOf(Mark(Lexing.Ampersand), Repeat(Lexing.Ampersand, k) + rest);
    if k == 0 {
      assert [] + rest == rest;
    } else {
      var more := Repeat(Lexing.Ampersand, k - 1) + rest;
      assert Repeat(Lexing.Ampersand, k) + rest == [Mark(Lexing.Ampersand)] + more;
      HeadOf(Mark(Lexing.Ampersand), more);
      DepthRead(k - 1, rest, depth + 1);
    }
  }

  lemma {:induction false} VariableLayout(v: Variable, rest: Stream)
    ensures var name, k := [Name(v.name)] + rest, v.typ.pointerDepth;
            PrintVariable(v) + rest == [Mark(TypeKind(v.typ.dataType))]
            + if k == 0 then name else [Mark(Lexing.Ampersand)] + (Repeat(Lexing.Ampersand, k - 1) + name)
  {}

  lemma {:induction false} TypeRead(t: Type, name: Stream)
    requires t.dataType != NoType && t.pointerDepth < LOOP_LIMIT && (t.isPointer <==> t.pointerDepth > 0) && Head(name) == Lexing.Identifier
    ensures var k := t.pointerDepth;
            var ts := [Mark(TypeKind(t.dataType))] + if k == 0 then name else [Mark(Lexing.Ampersand)] + (Repeat(Lexing.Ampersand, k - 1) + name);
            ParseType(ts) == Some((t, name)) && DataTypeOf(Head(ts)).Some?
  {
    hide DepthLoop, Repeat;
    var k := t.pointerDepth;
    if k == 0 {
      HeadOf(Mark(TypeKind(t.dataType)), name);
    } else {
      var more := Repeat(Lexing.Ampersand, k - 1) + name;
      HeadOf(Mark(TypeKind(t.dataType)), [Mark(Lexing.Ampersand)] + more);
      HeadOf(Mark(Lexing.Ampersand), more);
      DepthRead(k - 1, name, 1);
    }
  }

  lemma {:induction false} VariableRead(v: Variable, rest: Stream)
    requires PrintableVariable(v)
    ensures ParseVariable(PrintVariable(v) + rest) == Some((v, rest))
    ensures DataTypeOf(Head(PrintVariable(v) + rest)).Some?
  {
    hide ParseType, PrintVariable, DataTypeOf, TypeKind, Repeat;
    VariableLayout(v, rest);
    HeadOf(Name(v.name), rest);
    TypeRead(v.typ, [Name(v.name)] + rest);
  }

  // ----- statements -----

  lemma {:induction false} StarLoopRead(k: nat, rest: Stream, stars: nat, n: nat)
    requires Head(rest) != Lexing.Star && n + k <= LOOP_LIMIT
    ensures StarLoop(Repeat(Lexing.Star, k) + rest, stars, n) == (stars + k, rest)
    decreases k
  {
    if k == 0 {
      assert [] + rest == rest;
    } else {
      var more := Repeat(Lexing.Star, k - 1) + rest;
      assert Repeat(Lexing.Star, k) + rest == [Mark(Lexing.Star)] + more;
      HeadOf(Mark(Lexing.Star), more);
      StarLoopRead(k - 1, rest, stars + 1, n + 1);
    }
  }

  lemma {:induction false} AssignmentRead(target: string, steps: nat, e: Expression, rest: Stream)
    requires steps <= LOOP_LIMIT && PrintableExpression(e) && Head(rest) == Lexing.Newline
    ensures var s := Assignment(target, steps, e); ParseStatement(PrintStatement(s) + rest) == Some(([s], rest))
  {
    hide PrintExpression, Grammar.ParseExpression, PrintStatement, StarLoop, PrintableExpression;
    var s := Assignment(target, steps, e);
    var value := PrintExpression(e) + rest;
    var name := [Name(target)] + ([Mark(Lexing.Equal)] + value);
    AssignmentLayout(target, steps, e, rest);
    HeadOf(Name(target), [Mark(Lexing.Equal)] + value);
    HeadOf(Mark(Lexing.Equal), value);
    ExpressionRead(e, rest);
    StarLoopRead(steps, name, 0, 0);
  }

  lemma {:induction false} AssignmentLayout(target: string, steps: nat, e: Expression, rest: Stream)
    ensures var name := [Name(target)] + ([Mark(Lexing.Equal)] + (PrintExpression(e) + rest));
            && PrintStatement(Assignment(target, steps, e)) + rest == Repeat(Lexing.Star, steps) + name
            && (steps == 0 ==> Repeat(Lexing.Star, steps) + name == name)
            && (steps > 0 ==> Head(Repeat(Lexing.Star, steps) + name) == Lexing.Star)
  {}

  // What may stand behind a statement: a newline, and then no further branch.
  predicate AfterStatement(rest: Stream) {
    Head(rest) == Lexing.Newline && Head(Tail(rest)) != Lexing.Newline && Head(Tail(rest)) != Lexing.Elif && Head(Tail(rest)) != Lexing.Else
  }

  lemma {:induction false} AheadOf(rest: Stream)
    requires Head(rest) == Lexing.Newline && Head(Tail(rest)) != Lexing.Newline
    ensures Ahead(rest) == Head(Tail(rest))
  {}

  lemma {:induction false} NewlineSkipped(rest: Stream)
    requires Head(rest) != Lexing.Newline
    ensures SkipNewlines([Lexing.NEWLINE] + rest) == rest
  {
    HeadOf(Lexing.NEWLINE, rest);
  }

  lemma {:induction false} StatementRead(s: Statement, rest: Stream)
    requires PrintableStatement(s) && AfterStatement(rest)
    ensures ParseStatement(PrintStatement(s) + rest) == Some(([s], rest))
    decreases s, 1
  {
    hide ParseVariable, ParseCall, ParseGroup, ParseAssigned, PrintCall, PrintChain, StarLoop;
    match s
    case Declaration(v) => VariableRead(v, rest);
    case Assignment(target, steps, e) => AssignmentRead(target, steps, e, rest);
    case CallStatement(call) =>
      CallStarts(call, rest);
      CallRead(call, rest);
    case Conditional(chain) =>
      ChainRead(chain, rest, true);
      ChainStarts(chain, rest, true);
  }

  // ----- branches -----

  predicate StartsBranch(t: Kind, start: bool) { if start then t == Lexing.If else t == Lexing.Elif || t == Lexing.Else }

  lemma {:induction false} ElseRead(b: Branch, rest: Stream)
    requires b.condition.None? && ParseBlock(PrintBlock(b.block) + rest) == Some((b.block, rest))
    ensures ParseBranch(PrintBranch(b, false) + rest, false) == Some((b, rest))
  {
    ElseLayout(b, rest);
    HeadOf(Mark(Lexing.Else), PrintBlock(b.block) + rest);
  }

  lemma {:induction false} ElseLayout(b: Branch, rest: Stream)
    requires b.condition.None?
    ensures PrintBranch(b, false) + rest == [Mark(Lexing.Else)] + (PrintBlock(b.block) + rest)
  {}

  lemma {:induction false} IfLayout(b: Branch, e: Expression, rest: Stream, start: bool)
    requires b.condition == Some(e)
    ensures PrintBranch(b, start) + rest == [Mark(if start then Lexing.If else Lexing.Elif)] + ([Mark(Lexing.LeftParenthesis)]
            + (PrintExpression(e) + ([Mark(Lexing.RightParenthesis)] + (PrintBlock(b.block) + rest))))
  {}

  lemma {:induction false} IfRead(b: Branch, e: Expression, rest: Stream, start: bool)
    requires b.condition == Some(e) && PrintableExpression(e) && ParseBlock(PrintBlock(b.block) + rest) == Some((b.block, rest))
    ensures ParseBranch(PrintBranch(b, start) + rest, start) == Some((b, rest))
  {
    var t, block := Mark(if start then Lexing.If else Lexing.Elif), PrintBlock(b.block) + rest;
    var close := [Mark(Lexing.RightParenthesis)] + block;
    var condition := PrintExpression(e) + close;
    IfLayout(b, e, rest, start);
    HeadOf(t, [Mark(Lexing.LeftParenthesis)] + condition);
    HeadOf(Mark(Lexing.LeftParenthesis), condition);
    HeadOf(Mark(Lexing.RightParenthesis), block);
    ExpressionRead(e, close);
  }

  lemma {:induction false} BranchRead(b: Branch, rest: Stream, start: bool)
    requires PrintableBranch(b, start)
    ensures ParseBranch(PrintBranch(b, start) + rest, start) == Some((b, rest))
    decreases b, 2
  {
    BlockRead(b.block, rest);
    if b.condition.None? {
      ElseRead(b, rest);
    } else {
      IfRead(b, b.condition.value, rest, start);
    }
  }

  lemma {:induction false} ChainStarts(chain: seq<Branch>, rest: Stream, start: bool)
    requires chain != [] && PrintableChain(chain, start)
    ensures StartsBranch(Head(PrintChain(chain, start) + rest), start)
  {
    var b := chain[0];
    var t := Mark(if b.condition.None? then Lexing.Else else if start then Lexing.If else Lexing.Elif);
    assert PrintBranch(b, start)[0] == t;
    assert (PrintChain(chain, start) + rest)[0] == t;
  }

  // The last branch of a chain, and one that others follow.
  lemma {:induction false} LastBranch(b: Branch, rest: Stream, ts: Stream, start: bool)
    requires ParseBranch(ts, start) == Some((b, rest)) && AfterStatement(rest) && Head(ts) != Lexing.Newline
    ensures ParseGroup(ts, start) == Some(([b], rest))
  {
    AheadOf(rest);
  }

  // The lookahead starts behind the current token, so a branch on the line of
  // the closing brace is not seen.
  lemma {:induction false} SameLineBranch(b: Branch, t: Lexing.Token, rest: Stream, start: bool)
    requires PrintableBranch(b, start) && (t.typ == Lexing.Elif || t.typ == Lexing.Else)
    requires var next := Lexing.FirstNotNewline(rest).typ; next != Lexing.Elif && next != Lexing.Else
    ensures ParseGroup(PrintBranch(b, start) + ([t] + rest), start) == Some(([b], [t] + rest))
  {
    hide ParseBranch, PrintBranch;
    HeadOf(t, rest);
    BranchRead(b, [t] + rest, start);
    assert PrintChain([b][1..], false) == [] && PrintChain([b], start) == PrintBranch(b, start) + [] + [];
    assert PrintBranch(b, start) + [] + [] == PrintBranch(b, start);
    ChainStarts([b], [t] + rest, start);
  }

  lemma {:induction false} MoreBranches(b: Branch, others: Stream, ts: Stream, start: bool, bs: seq<Branch>, rest: Stream)
    requires ParseBranch(ts, start) == Some((b, [Lexing.NEWLINE] + others)) && Head(ts) != Lexing.Newline
    requires StartsBranch(Head(others), false) && ParseGroup(others, false) == Some((bs, rest))
    ensures ParseGroup(ts, start) == Some(([b] + bs, rest))
  {
    hide ParseBranch;
    var more := [Lexing.NEWLINE] + others;
    HeadOf(Lexing.NEWLINE, others);
    AheadOf(more);
    NewlineSkipped(others);
    assert ParseGroup(more, false) == ParseGroup(others, false);
  }

  lemma {:induction false} ChainSplits(chain: seq<Branch>, rest: Stream, start: bool)
    requires chain != []
    ensures PrintChain(chain, start) + rest ==
            PrintBranch(chain[0], start) + if |chain| == 1 then rest else [Lexing.NEWLINE] + (PrintChain(chain[1..], false) + rest)
  {
    if |chain| == 1 {
      assert PrintChain(chain[1..], false) == [];
    }
  }

  lemma {:induction false} ChainRead(chain: seq<Branch>, rest: Stream, start: bool)
    requires chain != [] && PrintableChain(chain, start) && AfterStatement(rest)
    ensures ParseGroup(PrintChain(chain, start) + rest, start) == Some((chain, rest))
    decreases chain, 0
  {
    hide PrintChain, PrintBranch, ParseBranch, ParseGroup;
    var b, ts := chain[0], PrintChain(chain, start) + rest;
    ChainSplits(chain, rest, start);
    ChainStarts(chain, rest, start);
    if |chain| == 1 {
      BranchRead(b, rest, start);
      LastBranch(b, rest, ts, start);
      assert chain == [b];
    } else {
      var others := PrintChain(chain[1..], false) + rest;
      ChainRead(chain[1..], rest, false);
      ChainStarts(chain[1..], rest, false);
      BranchRead(b, [Lexing.NEWLINE] + others, start);
      MoreBranches(b, others, ts, start, chain[1..], rest);
      HeadTail(chain);
    }
  }

  // ----- lists of statements -----

  // The tokens a statement may begin with: none ends a list or a chain.
  predicate StartsStatement(t: Kind) { t == Lexing.Star || t == Lexing.If || t == Lexing.Identifier || DataTypeOf(t).Some? }

  lemma {:induction false} StatementStarts(s: Statement, rest: Stream)
    requires PrintableStatement(s)
    ensures StartsStatement(Head(PrintStatement(s) + rest))
  {
    match s
    case Declaration(v) => VariableRead(v, rest);
    case Assignment(target, steps, e) => assert (PrintStatement(s) + rest)[0] == if steps == 0 then Name(target) else Mark(Lexing.Star);
    case CallStatement(call) => CallStarts(call, rest);
    case Conditional(chain) => ChainStarts(chain, rest, true);
  }

  lemma {:induction false} StatementsLayout(ss: seq<Statement>, rest: Stream)
    requires ss != []
    ensures PrintStatements(ss) + rest == PrintStatement(ss[0]) + ([Lexing.NEWLINE] + (PrintStatements(ss[1..]) + rest))
  {}

  lemma {:induction false} StatementsStart(ss: seq<Statement>, rest: Stream)
    requires PrintableStatements(ss) && EndsStatements(Head(rest))
    ensures var ts := PrintStatements(ss) + rest;
            (ss == [] ==> ts == rest) && (ss != [] ==> StartsStatement(Head(ts)))
  {
    if ss == [] {
      assert [] + rest == rest;
    } else {
      StatementsLayout(ss, rest);
      StatementStarts(ss[0], [Lexing.NEWLINE] + (PrintStatements(ss[1..]) + rest));
    }
  }

  lemma {:induction false} StatementsRead(ss: seq<Statement>, rest: Stream, n: nat)
    requires ss != [] && PrintableStatements(ss) && EndsStatements(Head(rest)) && n + |ss| <= LOOP_LIMIT
    ensures StatementLoop(PrintStatements(ss) + rest, n) == Some((ss, rest))
    decreases ss, 0
  {
    hide ParseStatement, PrintStatement, PrintStatements, PrintableStatement, Tail;
    var s, others := ss[0], PrintStatements(ss[1..]) + rest;
    var more := [Lexing.NEWLINE] + others;
    StatementsLayout(ss, rest);
    HeadOf(Lexing.NEWLINE, others);
    StatementsStart(ss[1..], rest);
    StatementRead(s, more);
    if |ss| == 1 {
      assert ss[1..] == [] && ss == [s];
    } else {
      StatementsRead(ss[1..], rest, n + 1);
      HeadTail(ss);
    }
  }

  lemma {:induction false} ReturnRead(e: Option<Expression>, rest: Stream)
    requires (e.Some? ==> PrintableExpression(e.value)) && Head(rest) == Lexing.RightCurlyBrace
    ensures var ts := PrintReturn(e) + rest;
            && EndsStatements(Head(ts)) && ParseReturn(ts).Some?
            && ParseReturn(ts).value.0 == e && SkipNewlines(ParseReturn(ts).value.1) == rest
  {
    match e
    case None => assert [] + rest == rest;
    case Some(x) =>
      var more := [Lexing.NEWLINE] + rest;
      assert PrintReturn(e) + rest == [Mark(Lexing.Return)] + (PrintExpression(x) + more);
      HeadOf(Mark(Lexing.Return), PrintExpression(x) + more);
      HeadOf(Lexing.NEWLINE, rest);
      ExpressionRead(x, more);
      NewlineSkipped(rest);
  }

  lemma {:induction false} BlockLayout(b: Block, rest: Stream)
    ensures PrintBlock(b) + rest ==
            [Mark(Lexing.LeftCurlyBrace)] + ([Lexing.NEWLINE] + (PrintStatements(b.statements)
            + (PrintReturn(b.returnValue) + ([Mark(Lexing.RightCurlyBrace)] + rest))))
  {}

  lemma {:induction false} BlockRead(b: Block, rest: Stream)
    requires PrintableBlock(b)
    ensures ParseBlock(PrintBlock(b) + rest) == Some((b, rest))
    decreases b, 1
  {
    hide ParseReturn, PrintStatements, PrintReturn, StatementLoop, Head, Tail;
    var close := [Mark(Lexing.RightCurlyBrace)] + rest;
    var ret := PrintReturn(b.returnValue) + close;
    var ss := PrintStatements(b.statements) + ret;
    BlockLayout(b, rest);
    HeadOf(Mark(Lexing.LeftCurlyBrace), [Lexing.NEWLINE] + ss);
    HeadOf(Mark(Lexing.RightCurlyBrace), rest);
    ReturnRead(b.returnValue, close);
    StatementsStart(b.statements, ret);
    NewlineSkipped(ss);
    if b.statements != [] {
      StatementsRead(b.statements, ret, 0);
    }
    assert ParseStatements(ss) == Some((b.statements, ret));
  }
}
