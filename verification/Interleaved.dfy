/**
  The parser with its calls into the analyzer where the code makes them: every
  piece goes to the analyzer as soon as it is read, and a refusal ends the
  parse. The same texts are accepted, with the same annotated trees, as by the
  analyzer behind the parser.
 */
module Interleaved {
  import opened Wrappers
  import opened Ast
  import opened Lowering
  import opened Items
  import opened Grammar
  import opened Analysis
  import Lexing
  import Prefixes

  // ----- expressions -----

  function ReadOperand(F: Signatures, T: Types, ts: Stream): (r: Option<(Operand, Stream)>)
    ensures Shrinks(ts, r)
    decreases |ts|, 0
  {
    var (step, ts1) :- PrefixLoop(ts, 0, false, 0);
    match Head(ts1)
    case Identifier =>
      var name, ts2 := Value(ts1), Tail(ts1);
      if Head(ts2) == Lexing.LeftParenthesis then
        var (call, ts3) :- ReadCall(F, T, name, ts2);
        if step == 0 then Some((CallOperand(call), ts3)) else None
      else Some((Operand.Identifier(name, Prefixes.NetIndirection(step), Prefixes.NetSteps(step)), ts2))
    case StringLiteral =>
      if step == 0 then Some((Operand.StringLiteral(Value(ts1)), Tail(ts1))) else None
    case IntegerLiteral =>
      if step == 0 then Some((Operand.IntegerLiteral(Value(ts1)), Tail(ts1))) else None
    case _ => None
  }

  function ReadUnit(F: Signatures, T: Types, ts: Stream, first: bool): (r: Option<(Unit, Stream)>)
    ensures Shrinks(ts, r)
    decreases |ts|, 1
  {
    if first then
      var (o, ts1) :- ReadOperand(F, T, ts);
      Some((Unit(None, o), ts1))
    else
      var operation :- OperatorOf(Head(ts));
      var (o, ts1) :- ReadOperand(F, T, Tail(ts));
      Some((Unit(Some(operation), o), ts1))
  }

  function ReadUnits(F: Signatures, T: Types, ts: Stream, first: bool, n: nat): (r: Option<(seq<Unit>, Stream)>)
    ensures Shrinks(ts, r)
    decreases |ts|, 2
  {
    var (u, ts1) :- ReadUnit(F, T, ts, first);
    if !IsOperator(Head(ts1)) || n >= LOOP_LIMIT then Some(([u], ts1))
    else
      var (us, ts2) :- ReadUnits(F, T, ts1, false, n + 1);
      Some(([u] + us, ts2))
  }

  function ReadExpression(F: Signatures, T: Types, ts: Stream): (r: Option<(Expression, Stream)>)
    ensures Shrinks(ts, r)
    decreases |ts|, 3
  {
    var (units, ts1) :- ReadUnits(F, T, ts, true, 0);
    var t :- UnitsType(F, T, None, units);
    Some((Expression(units, t), ts1))
  }

  function ReadArguments(F: Signatures, T: Types, ts: Stream, n: nat): (r: Option<(seq<Expression>, Stream)>)
    ensures Shrinks(ts, r)
    decreases |ts|, 4
  {
    var (e, ts1) :- ReadExpression(F, T, ts);
    if Head(ts1) == Lexing.RightParenthesis then Some(([e], ts1))
    else if Head(ts1) != Lexing.Comma then None
    else if n >= LOOP_LIMIT then Some(([e], Tail(ts1)))
    else
      var (es, ts2) :- ReadArguments(F, T, Tail(ts1), n + 1);
      Some(([e] + es, ts2))
  }

  function CallRead(F: Signatures, name: string, es: seq<Expression>, ts: Stream): Option<(Call, Stream)> {
    if CallAllowed(F, Call(name, es)) then Some((Call(name, es), ts)) else None
  }

  function ReadCall(F: Signatures, T: Types, name: string, ts: Stream): (r: Option<(Call, Stream)>)
    ensures Shrinks(ts, r)
    decreases |ts|, 0
  {
    if Head(ts) != Lexing.LeftParenthesis then None
    else if Head(Tail(ts)) == Lexing.RightParenthesis then CallRead(F, name, [], Tail(Tail(ts)))
    else
      var (es, ts1) :- ReadArguments(F, T, Tail(ts), 0);
      if Head(ts1) == Lexing.RightParenthesis then CallRead(F, name, es, Tail(ts1)) else None
  }

  // What parsing gave, analyzed; nothing when either has failed.
  function Both<A, B>(parsed: Option<(A, Stream)>, analyzed: Option<B>): Option<(B, Stream)> {
    if parsed.None? || analyzed.None? then None else Some((analyzed.value, parsed.value.1))
  }

  lemma {:induction false} OperandSame(F: Signatures, T: Types, ts: Stream)
    ensures ReadOperand(F, T, ts) == var r := ParseOperand(ts); if r.None? then None else Both(r, AnnotateOperand(F, T, r.value.0))
    decreases |ts|, 0
  {
    var r := PrefixLoop(ts, 0, false, 0);
    if r.Some? && Head(r.value.1) == Lexing.Identifier && Head(Tail(r.value.1)) == Lexing.LeftParenthesis {
      CallSame(F, T, Value(r.value.1), Tail(r.value.1));
    }
  }

  lemma {:induction false} UnitSame(F: Signatures, T: Types, ts: Stream, first: bool)
    ensures ReadUnit(F, T, ts, first) == var r := ParseUnit(ts, first); if r.None? then None else Both(r, AnnotateUnit(F, T, r.value.0))
    decreases |ts|, 1
  {
    if first {
      OperandSame(F, T, ts);
    } else if OperatorOf(Head(ts)).Some? {
      OperandSame(F, T, Tail(ts));
    }
  }

  lemma {:induction false} OneUnit(F: Signatures, T: Types, u: Unit)
    ensures AnnotateUnits(F, T, [u]) == var a := AnnotateUnit(F, T, u); if a.None? then None else Some([a.value])
  {
    assert [u][1..] == [] && AnnotateUnits(F, T, []) == Some([]);
    var a := AnnotateUnit(F, T, u);
    if a.Some? {
      assert [a.value] + [] == [a.value];
    }
  }

  lemma {:induction false} OneArgument(F: Signatures, T: Types, e: Expression)
    ensures AnnotateArguments(F, T, [e]) == var a := AnnotateExpression(F, T, e); if a.None? then None else Some([a.value])
  {
    assert [e][1..] == [] && AnnotateArguments(F, T, []) == Some([]);
    var a := AnnotateExpression(F, T, e);
    if a.Some? {
      assert [a.value] + [] == [a.value];
    }
  }

  lemma {:induction false} UnitsSame(F: Signatures, T: Types, ts: Stream, first: bool, n: nat)
    ensures ReadUnits(F, T, ts, first, n) ==
            var r := ParseUnits(ts, first, n); if r.None? then None else Both(r, AnnotateUnits(F, T, r.value.0))
    decreases |ts|, 2
  {
    hide ParseUnit, ReadUnit, AnnotateUnit, OperatorOf;
    UnitSame(F, T, ts, first);
    var u := ParseUnit(ts, first);
    if u.Some? {
      var (x, ts1) := u.value;
      if !IsOperator(Head(ts1)) || n >= LOOP_LIMIT {
        OneUnit(F, T, x);
      } else {
        UnitsSame(F, T, ts1, false, n + 1);
        var more := ParseUnits(ts1, false, n + 1);
        if more.Some? {
          assert ([x] + more.value.0)[1..] == more.value.0;
        }
      }
    }
  }

  lemma {:induction false} ExpressionSame(F: Signatures, T: Types, ts: Stream)
    ensures ReadExpression(F, T, ts) == var r := ParseExpression(ts); if r.None? then None else Both(r, AnnotateExpression(F, T, r.value.0))
    decreases |ts|, 3
  {
    UnitsSame(F, T, ts, true, 0);
  }

  lemma {:induction false} ArgumentsSame(F: Signatures, T: Types, ts: Stream, n: nat)
    ensures ReadArguments(F, T, ts, n) == var r := ParseArguments(ts, n); if r.None? then None else Both(r, AnnotateArguments(F, T, r.value.0))
    decreases |ts|, 4
  {
    hide ParseExpression, ReadExpression, AnnotateExpression;
    ExpressionSame(F, T, ts);
    var e := ParseExpression(ts);
    if e.Some? {
      var (x, ts1) := e.value;
      OneArgument(F, T, x);
      if Head(ts1) == Lexing.Comma && n < LOOP_LIMIT {
        ArgumentsSame(F, T, Tail(ts1), n + 1);
        var more := ParseArguments(Tail(ts1), n + 1);
        if more.Some? {
          assert ([x] + more.value.0)[1..] == more.value.0;
        }
      }
    }
  }

  lemma {:induction false} CallSame(F: Signatures, T: Types, name: string, ts: Stream)
    ensures ReadCall(F, T, name, ts) == var r := ParseCall(name, ts); if r.None? then None else Both(r, AnnotateCall(F, T, r.value.0))
    decreases |ts|, 0
  {
    assert AnnotateArguments(F, T, []) == Some([]);
    if Head(ts) == Lexing.LeftParenthesis && Head(Tail(ts)) != Lexing.RightParenthesis {
      ArgumentsSame(F, T, Tail(ts), 0);
    }
  }

  // ----- statements -----

  function ReadAssigned(F: Signatures, T: Types, ts: Stream): (r: Option<(Expression, Stream)>)
    ensures Shrinks(ts, r)
  {
    if Head(ts) != Lexing.Equal then None
    else
      var (e, ts1) :- ReadExpression(F, T, Tail(ts));
      if Head(ts1) == Lexing.Newline then Some((e, ts1)) else None
  }

  // The statements, the scopes behind them, and the tokens left.
  type Statements = (seq<Statement>, Types)

  function MarkedAssignment(T: Types, target: string, stars: nat, e: Expression): Option<Statement> {
    var (steps, isPointer) :- AssignmentMarks(T, target, stars, e.evaluatedType);
    Some(Assignment(target, steps, e.(evaluatedType := e.evaluatedType.(isPointer := isPointer))))
  }

  function ReadCallOrAssignment(F: Signatures, T: Types, ts: Stream, stars: nat): (r: Option<(Statements, Stream)>)
    ensures Shrinks(ts, r)
  {
    if Head(ts) != Lexing.Identifier then None
    else if Head(Tail(ts)) == Lexing.Equal then
      var (e, ts1) :- ReadAssigned(F, T, Tail(ts));
      var a :- MarkedAssignment(T, Value(ts), stars, e);
      Some((([a], T), ts1))
    else
      var (call, ts1) :- ReadCall(F, T, Value(ts), Tail(ts));
      Some((([CallStatement(call)], T), ts1))
  }

  // The variable is declared before its assignment is read.
  function ReadDeclaration(F: Signatures, T: Types, ts: Stream): (r: Option<(Statements, Stream)>)
    ensures Shrinks(ts, r)
  {
    var (v, ts1) :- ParseVariable(ts);
    if T == [] || v.name in T[0] then None
    else
      var T1 := Declare(T, v.name, v.typ);
      if Head(ts1) == Lexing.Equal then
        var (e, ts2) :- ReadAssigned(F, T1, ts1);
        var a :- MarkedAssignment(T1, v.name, 0, e);
        Some((([Declaration(v), a], T1), ts2))
      else if Head(ts1) == Lexing.Newline then Some((([Declaration(v)], T1), ts1))
      else None
  }

  function ReadStatements(F: Signatures, T: Types, ret: Type, ts: Stream): (r: Option<(Statements, Stream)>)
    ensures r.Some? ==> |r.value.1| <= |ts|
    decreases |ts|, 6
  {
    if EndsStatements(Head(ts)) then Some((([], T), ts)) else ReadLoop(F, T, ret, SkipNewlines(ts), 0)
  }

  function ReadLoop(F: Signatures, T: Types, ret: Type, ts: Stream, n: nat): (r: Option<(Statements, Stream)>)
    ensures Shrinks(ts, r)
    decreases |ts|, 5
  {
    var ((ss, T1), ts1) :- ReadStatement(F, T, ret, ts);
    var ts2 := SkipNewlines(Tail(ts1));
    if EndsStatements(Head(ts2)) || n >= LOOP_LIMIT then Some(((ss, T1), ts2))
    else
      var ((others, T2), ts3) :- ReadLoop(F, T1, ret, ts2, n + 1);
      Some(((ss + others, T2), ts3))
  }

  function ReadStatement(F: Signatures, T: Types, ret: Type, ts: Stream): (r: Option<(Statements, Stream)>)
    ensures Shrinks(ts, r)
    decreases |ts|, 4
  {
    match Head(ts)
    case Star =>
      var (stars, ts1) := StarLoop(ts, 0, 0);
      ReadCallOrAssignment(F, T, ts1, stars)
    case If =>
      var (chain, ts1) :- ReadGroup(F, T, ret, ts, true);
      Some((([Conditional(chain)], T), ts1))
    case Identifier => ReadCallOrAssignment(F, T, ts, 0)
    case _ => ReadDeclaration(F, T, ts)
  }

  function ReadGroup(F: Signatures, T: Types, ret: Type, ts: Stream, start: bool): (r: Option<(seq<Branch>, Stream)>)
    ensures Shrinks(ts, r)
    decreases |ts|, 3
  {
    var (b, ts1) :- ReadBranch(F, T, ret, SkipNewlines(ts), start);
    if Ahead(ts1) == Lexing.Elif || Ahead(ts1) == Lexing.Else then
      var (bs, ts2) :- ReadGroup(F, T, ret, ts1, false);
      Some(([b] + bs, ts2))
    else Some(([b], ts1))
  }

  function ReadBranch(F: Signatures, T: Types, ret: Type, ts: Stream, start: bool): (r: Option<(Branch, Stream)>)
    ensures Shrinks(ts, r)
    decreases |ts|, 2
  {
    if start && Head(ts) != Lexing.If then None
    else if !start && Head(ts) != Lexing.Elif && Head(ts) != Lexing.Else then None
    else if Head(ts) == Lexing.Else then
      var (b, ts1) :- ReadBlock(F, T, map[], ret, false, Tail(ts));
      Some((Branch(None, b), ts1))
    else if Head(Tail(ts)) != Lexing.LeftParenthesis then None
    else
      var (e, ts1) :- ReadExpression(F, T, Tail(Tail(ts)));
      if Head(ts1) != Lexing.RightParenthesis then None
      else
        var (b, ts2) :- ReadBlock(F, T, map[], ret, false, Tail(ts1));
        Some((Branch(Some(e), b), ts2))
  }

  function ReadReturn(F: Signatures, T: Types, ts: Stream): (r: Option<(Option<Expression>, Stream)>)
    ensures r.Some? ==> |r.value.1| <= |ts|
  {
    if Head(ts) != Lexing.Return then Some((None, ts))
    else
      var (e, ts1) :- ReadExpression(F, T, Tail(ts));
      Some((Some(e), ts1))
  }

  // The scope is pushed first; the return is checked before the brace is read.
  function ReadBlock(F: Signatures, T: Types, names: map<string, Type>, ret: Type, isFunction: bool, ts: Stream): (r: Option<(Block, Stream)>)
    ensures Shrinks(ts, r)
    decreases |ts|, 1
  {
    var ts0 := SkipNewlines(ts);
    if Head(ts0) != Lexing.LeftCurlyBrace then None
    else
      var ((ss, T1), ts1) :- ReadStatements(F, [names] + T, ret, SkipNewlines(Tail(ts0)));
      var (value, ts2) :- ReadReturn(F, T1, ts1);
      if !ReturnAllowed(ret, isFunction, value) then None
      else
        var ts3 := SkipNewlines(ts2);
        if Head(ts3) == Lexing.RightCurlyBrace then Some((Block(ss, value), Tail(ts3))) else None
  }

  lemma {:induction false} AssignedSame(F: Signatures, T: Types, ts: Stream)
    ensures ReadAssigned(F, T, ts) == var r := ParseAssigned(ts); if r.None? then None else Both(r, AnnotateExpression(F, T, r.value.0))
  {
    ExpressionSame(F, T, Tail(ts));
  }

  lemma {:induction false} OneStatement(F: Signatures, T: Types, ret: Type, s: Statement)
    ensures AnnotateStatements(F, T, ret, [s]) == var a := AnnotateStatement(F, T, ret, s); if a.None? then None else Some(([a.value.0], a.value.1))
  {
    assert [s][1..] == [];
    var a := AnnotateStatement(F, T, ret, s);
    if a.Some? {
      assert AnnotateStatements(F, a.value.1, ret, []) == Some(([], a.value.1)) && [a.value.0] + [] == [a.value.0];
    }
  }

  lemma {:induction false} StatementsAppend(F: Signatures, T: Types, ret: Type, a: seq<Statement>, b: seq<Statement>)
    ensures AnnotateStatements(F, T, ret, a + b) ==
            var x := AnnotateStatements(F, T, ret, a);
            if x.None? then None
            else
              var y := AnnotateStatements(F, x.value.1, ret, b);
              if y.None? then None else Some((x.value.0 + y.value.0, y.value.1))
    decreases |a|
  {
    if a == [] {
      assert a + b == b;
      var y := AnnotateStatements(F, T, ret, b);
      assert y.Some? ==> [] + y.value.0 == y.value.0;
    } else {
      assert (a + b)[0] == a[0] && (a + b)[1..] == a[1..] + b;
      var first := AnnotateStatement(F, T, ret, a[0]);
      if first.Some? {
        var (s, T1) := first.value;
        StatementsAppend(F, T1, ret, a[1..], b);
        var rest := AnnotateStatements(F, T1, ret, a[1..]);
        if rest.Some? {
          var y := AnnotateStatements(F, rest.value.1, ret, b);
          assert y.Some? ==> [s] + (rest.value.0 + y.value.0) == [s] + rest.value.0 + y.value.0;
        }
      }
    }
  }

  lemma {:induction false} CallOrAssignmentSame(F: Signatures, T: Types, ret: Type, ts: Stream, stars: nat)
    ensures ReadCallOrAssignment(F, T, ts, stars) ==
            var r := ParseCallOrAssignment(ts, stars); if r.None? then None else Both(r, AnnotateStatements(F, T, ret, r.value.0))
  {
    hide ParseAssigned, ParseCall, AnnotateStatements, AnnotateExpression, AnnotateCall, AssignmentMarks;
    AssignedSame(F, T, Tail(ts));
    CallSame(F, T, Value(ts), Tail(ts));
    var r := ParseCallOrAssignment(ts, stars);
    if r.Some? {
      OneStatement(F, T, ret, r.value.0[0]);
    }
  }

  lemma {:induction false} DeclarationSame(F: Signatures, T: Types, ret: Type, ts: Stream)
    ensures ReadDeclaration(F, T, ts) ==
            var r := ParseDeclaration(ts); if r.None? then None else Both(r, AnnotateStatements(F, T, ret, r.value.0))
  {
    hide ParseAssigned, AnnotateStatements, AnnotateExpression, AssignmentMarks, ParseVariable;
    var v := ParseVariable(ts);
    if v.Some? {
      var (x, ts1) := v.value;
      OneStatement(F, T, ret, Declaration(x));
      if Head(ts1) == Lexing.Equal && ParseAssigned(ts1).Some? {
        var T1 := Declare(T, x.name, x.typ);
        AssignedSame(F, T1, ts1);
        var a := Assignment(x.name, 0, ParseAssigned(ts1).value.0);
        OneStatement(F, T1, ret, a);
        StatementsAppend(F, T, ret, [Declaration(x)], [a]);
        assert [Declaration(x)] + [a] == [Declaration(x), a];
        var m := MarkedAssignment(T1, x.name, 0, AnnotateExpression(F, T1, a.expression).GetOr(a.expression));
        assert m.Some? ==> [Declaration(x)] + [m.value] == [Declaration(x), m.value];
      } else if Head(ts1) == Lexing.Equal {
        AssignedSame(F, Declare(T, x.name, x.typ), ts1);
      }
    }
  }

  lemma {:induction false} StatementsSame(F: Signatures, T: Types, ret: Type, ts: Stream)
    ensures ReadStatements(F, T, ret, ts) ==
            var r := ParseStatements(ts); if r.None? then None else Both(r, AnnotateStatements(F, T, ret, r.value.0))
    decreases |ts|, 6
  {
    hide StatementLoop, ReadLoop;
    if !EndsStatements(Head(ts)) {
      LoopSame(F, T, ret, SkipNewlines(ts), 0);
    }
  }

  lemma {:induction false} LoopSame(F: Signatures, T: Types, ret: Type, ts: Stream, n: nat)
    ensures ReadLoop(F, T, ret, ts, n) ==
            var r := StatementLoop(ts, n); if r.None? then None else Both(r, AnnotateStatements(F, T, ret, r.value.0))
    decreases |ts|, 5
  {
    hide ParseStatement, ReadStatement, AnnotateStatements;
    StatementSame(F, T, ret, ts);
    var s := ParseStatement(ts);
    if s.Some? {
      var (ss, ts1) := s.value;
      var ts2, a := SkipNewlines(Tail(ts1)), AnnotateStatements(F, T, ret, ss);
      assert a.Some? ==> a.value == (a.value.0, a.value.1);
      if !EndsStatements(Head(ts2)) && n < LOOP_LIMIT {
        if a.Some? {
          LoopSame(F, a.value.1, ret, ts2, n + 1);
        }
        var more := StatementLoop(ts2, n + 1);
        if more.Some? {
          StatementsAppend(F, T, ret, ss, more.value.0);
        }
      }
    }
  }

  lemma {:induction false} StatementSame(F: Signatures, T: Types, ret: Type, ts: Stream)
    ensures ReadStatement(F, T, ret, ts) ==
            var r := ParseStatement(ts); if r.None? then None else Both(r, AnnotateStatements(F, T, ret, r.value.0))
    decreases |ts|, 4
  {
    hide ParseCallOrAssignment, ParseDeclaration, ParseGroup, AnnotateStatements, ReadCallOrAssignment, ReadDeclaration, ReadGroup, AnnotateChain;
    match Head(ts)
    case Star =>
      var (stars, ts1) := StarLoop(ts, 0, 0);
      CallOrAssignmentSame(F, T, ret, ts1, stars);
    case If =>
      GroupSame(F, T, ret, ts, true);
      var r := ParseGroup(ts, true);
      if r.Some? {
        OneStatement(F, T, ret, Conditional(r.value.0));
      }
    case Identifier => CallOrAssignmentSame(F, T, ret, ts, 0);
    case _ => DeclarationSame(F, T, ret, ts);
  }

  lemma {:induction false} OneBranch(F: Signatures, T: Types, ret: Type, b: Branch)
    ensures AnnotateChain(F, T, ret, [b]) == var a := AnnotateBranch(F, T, ret, b); if a.None? then None else Some([a.value])
  {
    assert [b][1..] == [] && AnnotateChain(F, T, ret, []) == Some([]);
    var a := AnnotateBranch(F, T, ret, b);
    assert a.Some? ==> [a.value] + [] == [a.value];
  }

  lemma {:induction false} GroupSame(F: Signatures, T: Types, ret: Type, ts: Stream, start: bool)
    ensures ReadGroup(F, T, ret, ts, start) ==
            var r := ParseGroup(ts, start); if r.None? then None else Both(r, AnnotateChain(F, T, ret, r.value.0))
    decreases |ts|, 3
  {
    hide ParseBranch, ReadBranch, AnnotateBranch, Ahead;
    BranchSame(F, T, ret, SkipNewlines(ts), start);
    var b := ParseBranch(SkipNewlines(ts), start);
    if b.Some? {
      var (x, ts1) := b.value;
      OneBranch(F, T, ret, x);
      if Ahead(ts1) == Lexing.Elif || Ahead(ts1) == Lexing.Else {
        GroupSame(F, T, ret, ts1, false);
        var more := ParseGroup(ts1, false);
        if more.Some? {
          assert ([x] + more.value.0)[1..] == more.value.0;
        }
      }
    }
  }

  lemma {:induction false} BranchSame(F: Signatures, T: Types, ret: Type, ts: Stream, start: bool)
    ensures ReadBranch(F, T, ret, ts, start) ==
            var r := ParseBranch(ts, start); if r.None? then None else Both(r, AnnotateBranch(F, T, ret, r.value.0))
    decreases |ts|, 2
  {
    hide ParseBlock, ParseExpression, ReadBlock, ReadExpression, AnnotateBlock, AnnotateExpression;
    if Head(ts) == Lexing.Else {
      BlockSame(F, T, map[], ret, false, Tail(ts));
    } else {
      ExpressionSame(F, T, Tail(Tail(ts)));
      var e := ParseExpression(Tail(Tail(ts)));
      if e.Some? {
        BlockSame(F, T, map[], ret, false, Tail(e.value.1));
      }
    }
  }

  lemma {:induction false} ReturnSame(F: Signatures, T: Types, ts: Stream)
    ensures ReadReturn(F, T, ts) == var r := ParseReturn(ts); if r.None? then None else Both(r, AnnotateOptional(F, T, r.value.0))
  {
    hide ParseExpression, ReadExpression, AnnotateExpression;
    ExpressionSame(F, T, Tail(ts));
  }

  lemma {:induction false} BlockSame(F: Signatures, T: Types, names: map<string, Type>, ret: Type, isFunction: bool, ts: Stream)
    ensures ReadBlock(F, T, names, ret, isFunction, ts) ==
            var r := ParseBlock(ts); if r.None? then None else Both(r, AnnotateBlock(F, T, names, ret, isFunction, r.value.0))
    decreases |ts|, 1
  {
    hide ParseStatements, ReadStatements, AnnotateStatements, ParseReturn, ReadReturn, AnnotateOptional, ReturnAllowed;
    var inner := SkipNewlines(Tail(SkipNewlines(ts)));
    if Head(SkipNewlines(ts)) == Lexing.LeftCurlyBrace {
      StatementsSame(F, [names] + T, ret, inner);
      var r := ParseStatements(inner);
      if r.Some? {
        var a := AnnotateStatements(F, [names] + T, ret, r.value.0);
        if a.Some? {
          ReturnSame(F, a.value.1, r.value.1);
        }
      }
    }
  }

  // ----- units -----

  // An item as far as the first pass knows it.
  function SourceAs(top: Top): Source {
    match top
    case GlobalTop(v, c) => GlobalSource(v, c)
    case FunctionTop(name, signature, start) => FunctionSource(name, signature, if start.Some? then Some(Block([], None)) else None)
  }

  function SourcesAs(tops: seq<Top>): (r: seq<Source>)
    ensures |r| == |tops| && forall i :: 0 <= i < |r| ==> r[i] == SourceAs(tops[i])
  {
    seq(|tops|, i requires 0 <= i < |tops| => SourceAs(tops[i]))
  }

  // Each item is registered as soon as it is read.
  function ReadTops(k: Known, ts: Stream, n: nat): Option<(seq<Top>, Known)>
    decreases |ts|
  {
    if ts == [] then Some(([], k))
    else if DataTypeOf(Head(ts)).Some? then
      var (top, ts1) :- ParseTop(ts);
      var k1 :- RegisterOne(k, SourceAs(top));
      if n >= LOOP_LIMIT then Some(([top], k1))
      else
        var (others, k2) :- ReadTops(k1, Tail(ts1), n + 1);
        Some(([top] + others, k2))
    else if !IsSeparator(Head(ts)) then None
    else
      var (ok, ts1) := ParseDirective(ts);
      if !ok then None
      else if n >= LOOP_LIMIT then Some(([], k))
      else ReadTops(k, Tail(ts1), n + 1)
  }

  function ReadBodies(F: Signatures, globals: map<string, Type>, tops: seq<Top>): Option<seq<Item>>
    decreases |tops|
  {
    if tops == [] then Some([])
    else if tops[0].FunctionTop? && tops[0].start.Some? then
      var s := tops[0].signature;
      var names :- ParameterTypes(s.parameters);
      var (b, _) :- ReadBlock(F, [globals], names, s.typ, true, tops[0].start.value);
      var others :- ReadBodies(F, globals, tops[1..]);
      Some([BodyItem(tops[0].name, b)] + others)
    else ReadBodies(F, globals, tops[1..])
  }

  function ReadItems(ts: Stream): Option<(seq<Item>, seq<Item>)> {
    var (tops, k) :- ReadTops(Known(map[], map[]), ts, 0);
    var bodies :- ReadBodies(SignaturesKnown(k), k.globals, tops);
    Some((DeclarationItems(SourcesAs(tops)), bodies))
  }

  lemma {:induction false} TopsSame(k: Known, ts: Stream, n: nat)
    ensures ReadTops(k, ts, n) ==
            var r := TopLoop(ts, n);
            if r.None? then None else var k' := Register(k, SourcesAs(r.value)); if k'.None? then None else Some((r.value, k'.value))
    decreases |ts|
  {
    hide ParseTop, RegisterOne, ParseDirective;
    if ts != [] {
      if DataTypeOf(Head(ts)).Some? && ParseTop(ts).Some? {
        var (top, ts1) := ParseTop(ts).value;
        var k1 := RegisterOne(k, SourceAs(top));
        RegisterFirst(k, top, []);
        if n < LOOP_LIMIT {
          if k1.Some? {
            TopsSame(k1.value, Tail(ts1), n + 1);
          }
          var others := TopLoop(Tail(ts1), n + 1);
          if others.Some? {
            RegisterFirst(k, top, others.value);
          }
        }
      } else if IsSeparator(Head(ts)) && n < LOOP_LIMIT {
        TopsSame(k, Tail(ParseDirective(ts).1), n + 1);
      }
    }
  }

  lemma {:induction false} RegisterFirst(k: Known, top: Top, others: seq<Top>)
    ensures Register(k, SourcesAs([top] + others)) ==
            var k1 := RegisterOne(k, SourceAs(top)); if k1.None? then None else Register(k1.value, SourcesAs(others))
    ensures others == [] ==> [top] + others == [top] && SourcesAs(others) == []
  {
    assert SourcesAs([top] + others)[1..] == SourcesAs(others);
  }

  // Registration does not look into bodies.
  lemma {:induction false} RegisterSame(k: Known, tops: seq<Top>)
    requires ParseBodies(tops).Some?
    ensures Register(k, SourcesAs(tops)) == Register(k, ParseBodies(tops).value)
    ensures DeclarationItems(SourcesAs(tops)) == DeclarationItems(ParseBodies(tops).value)
    decreases |tops|
  {
    hide ParseBlock;
    if tops != [] {
      var a, b := SourcesAs(tops), ParseBodies(tops).value;
      assert a[1..] == SourcesAs(tops[1..]) && b[1..] == ParseBodies(tops[1..]).value;
      var k1 := RegisterOne(k, a[0]);
      assert k1 == RegisterOne(k, b[0]) && DeclarationItem(a[0]) == DeclarationItem(b[0]);
      RegisterSame(k1.GetOr(k), tops[1..]);
      assert DeclarationItems(a) == [DeclarationItem(a[0])] + DeclarationItems(a[1..]);
      assert DeclarationItems(b) == [DeclarationItem(b[0])] + DeclarationItems(b[1..]);
    }
  }

  lemma {:induction false} BodiesSame(F: Signatures, globals: map<string, Type>, tops: seq<Top>)
    ensures ReadBodies(F, globals, tops) == var s := ParseBodies(tops); if s.None? then None else AnnotateBodies(F, globals, s.value)
    decreases |tops|
  {
    hide ParseBlock, ReadBlock, AnnotateBlock, ParameterTypes;
    if tops != [] {
      BodiesSame(F, globals, tops[1..]);
      var s := ParseBodies(tops);
      if s.Some? {
        assert s.value[1..] == ParseBodies(tops[1..]).value;
      }
      if tops[0].FunctionTop? && tops[0].start.Some? {
        var names := ParameterTypes(tops[0].signature.parameters);
        if names.Some? {
          BlockSame(F, [globals], names.value, tops[0].signature.typ, true, tops[0].start.value);
        }
      }
    }
  }

  // On any tokens: reading and analyzing piece by piece gives what analyzing
  // the parsed unit gives, or fails exactly when one of the two fails.
  lemma {:induction false} InterleavedSame(ts: Stream)
    ensures ReadItems(ts) == var s := Parse(ts); if s.None? then None else Analyze(s.value)
  {
    hide TopLoop, ReadTops, ParseBodies, ReadBodies, Register, AnnotateBodies, SourcesAs, DeclarationItems;
    var start := Known(map[], map[]);
    TopsSame(start, ts, 0);
    var tops := TopLoop(ts, 0);
    if tops.Some? {
      if ParseBodies(tops.value).Some? {
        RegisterSame(start, tops.value);
      }
      var k := Register(start, SourcesAs(tops.value));
      if k.Some? {
        BodiesSame(SignaturesKnown(k.value), k.value.globals, tops.value);
      }
    }
  }
}
