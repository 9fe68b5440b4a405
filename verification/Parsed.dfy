/**
  The trees that come out of the parser: every one has a layout, so printing a
  parsed tree and reading it again gives the same tree. Texts of up to a
  million tokens, which no loop of the parser leaves by its limit.
 */
module Parsed {
  import opened Wrappers
  import opened Ast
  import opened Prefixes
  import opened Grammar
  import opened Printer
  import Analysis
  import Indirections
  import Items
  import Lexing
  import TwoPasses

  // ----- expressions -----

  lemma {:induction false} OperandParsed(ts: Stream)
    requires |ts| <= LOOP_LIMIT && ParseOperand(ts).Some?
    ensures PrintableOperand(ParseOperand(ts).value.0)
    decreases |ts|, 0
  {
    var o := ParseOperand(ts).value.0;
    if o.Identifier? {
      IdentifierParsed(ts);
    } else if o.CallOperand? {
      var ts1 := PrefixLoop(ts, 0, false, 0).value.1;
      CallParsed(Value(ts1), Tail(ts1));
    }
  }

  lemma {:induction false} IdentifierParsed(ts: Stream)
    requires ParseOperand(ts).Some? && ParseOperand(ts).value.0.Identifier?
    ensures PrintableOperand(ParseOperand(ts).value.0)
  {
    hide ParseOperand;
    Indirections.OperandSigns(ts);
    NetBound(Indirections.Operators(ts));
  }

  lemma {:induction false} UnitParsed(ts: Stream, first: bool)
    requires |ts| <= LOOP_LIMIT && ParseUnit(ts, first).Some?
    ensures PrintableUnit(ParseUnit(ts, first).value.0, first)
    decreases |ts|, 1
  {
    OperandParsed(if first then ts else Tail(ts));
  }

  lemma {:induction false} UnitsParsed(ts: Stream, first: bool, n: nat)
    requires |ts| <= LOOP_LIMIT && ParseUnits(ts, first, n).Some?
    ensures var (us, rest) := ParseUnits(ts, first, n).value; us != [] && PrintableUnits(us, first) && |us| + |rest| <= |ts|
    decreases |ts|, 2
  {
    hide ParseUnit, PrintableUnit;
    UnitParsed(ts, first);
    var (u, ts1) := ParseUnit(ts, first).value;
    var (us, rest) := ParseUnits(ts, first, n).value;
    assert us[0] == u;
    if IsOperator(Head(ts1)) && n < LOOP_LIMIT {
      UnitsParsed(ts1, false, n + 1);
      assert us[1..] == ParseUnits(ts1, false, n + 1).value.0;
    }
  }

  lemma {:induction false} ExpressionParsed(ts: Stream)
    requires |ts| <= LOOP_LIMIT && ParseExpression(ts).Some?
    ensures PrintableExpression(ParseExpression(ts).value.0)
    decreases |ts|, 3
  {
    UnitsParsed(ts, true, 0);
  }

  lemma {:induction false} ArgumentsParsed(ts: Stream, n: nat)
    requires |ts| <= LOOP_LIMIT && ParseArguments(ts, n).Some?
    ensures var (es, rest) := ParseArguments(ts, n).value; PrintableArguments(es) && |es| + |rest| <= |ts|
    decreases |ts|, 4
  {
    ExpressionParsed(ts);
    var (e, ts1) := ParseExpression(ts).value;
    var (es, rest) := ParseArguments(ts, n).value;
    assert es[0] == e;
    if Head(ts1) == Lexing.Comma && n < LOOP_LIMIT {
      ArgumentsParsed(Tail(ts1), n + 1);
      assert es[1..] == ParseArguments(Tail(ts1), n + 1).value.0;
    }
  }

  lemma {:induction false} CallParsed(name: string, ts: Stream)
    requires |ts| <= LOOP_LIMIT && ParseCall(name, ts).Some?
    ensures PrintableCall(ParseCall(name, ts).value.0)
    decreases |ts|, 0
  {
    if Head(Tail(ts)) != Lexing.RightParenthesis {
      ArgumentsParsed(Tail(ts), 0);
    }
  }

  // ----- declarations -----

  lemma {:induction false} DepthParsed(ts: Stream, depth: nat)
    requires Head(ts) == Lexing.Ampersand
    ensures var (d, rest) := DepthLoop(ts, depth); depth <= d && d + |rest| <= depth + |ts|
    decreases |ts|
  {
    if Head(Tail(ts)) == Lexing.Ampersand && depth + 1 < LOOP_LIMIT {
      DepthParsed(Tail(ts), depth + 1);
    }
  }

  lemma {:induction false} VariableParsed(ts: Stream)
    requires |ts| <= LOOP_LIMIT && ParseVariable(ts).Some?
    ensures PrintableVariable(ParseVariable(ts).value.0) && |ParseVariable(ts).value.1| + 2 <= |ts|
  {
    if Head(Tail(ts)) == Lexing.Ampersand {
      DepthParsed(Tail(ts), 1);
    }
  }

  lemma {:induction false} ParametersParsed(ts: Stream, n: nat)
    requires |ts| <= LOOP_LIMIT && ParseParameters(ts, n).Some?
    ensures var (vs, rest) := ParseParameters(ts, n).value; (forall v :: v in vs ==> PrintableVariable(v)) && |vs| + |rest| <= |ts|
    decreases |ts|
  {
    VariableParsed(ts);
    var (v, ts1) := ParseVariable(ts).value;
    if Head(ts1) == Lexing.Comma && n < LOOP_LIMIT {
      ParametersParsed(Tail(ts1), n + 1);
    }
  }

  // ----- statements -----

  lemma {:induction false} AssignedParsed(ts: Stream)
    requires |ts| <= LOOP_LIMIT && ParseAssigned(ts).Some?
    ensures PrintableExpression(ParseAssigned(ts).value.0)
  {
    ExpressionParsed(Tail(ts));
  }

  lemma {:induction false} One(s: Statement)
    requires PrintableStatement(s)
    ensures PrintableStatements([s])
  {
    assert [s][1..] == [];
  }

  lemma {:induction false} CallOrAssignmentParsed(ts: Stream, stars: nat)
    requires |ts| <= LOOP_LIMIT && stars <= LOOP_LIMIT && ParseCallOrAssignment(ts, stars).Some?
    ensures var (ss, rest) := ParseCallOrAssignment(ts, stars).value; PrintableStatements(ss) && |ss| == 1
  {
    if Head(Tail(ts)) == Lexing.Equal {
      AssignedParsed(Tail(ts));
    } else {
      CallParsed(Value(ts), Tail(ts));
    }
    One(ParseCallOrAssignment(ts, stars).value.0[0]);
  }

  lemma {:induction false} StarsParsed(ts: Stream, stars: nat, n: nat)
    ensures var (k, rest) := StarLoop(ts, stars, n); k + |rest| <= stars + |ts|
    decreases |ts|
  {
    if Head(ts) == Lexing.Star && n < LOOP_LIMIT {
      StarsParsed(Tail(ts), stars + 1, n + 1);
    }
  }

  // A declaration with an assignment is two statements, of four tokens at least.
  lemma {:induction false} DeclarationParsed(ts: Stream)
    requires |ts| <= LOOP_LIMIT && ParseDeclaration(ts).Some?
    ensures var (ss, rest) := ParseDeclaration(ts).value; PrintableStatements(ss) && 0 < |ss| && |ss| + |rest| <= |ts|
  {
    VariableParsed(ts);
    var (v, ts1) := ParseVariable(ts).value;
    One(Declaration(v));
    if Head(ts1) == Lexing.Equal {
      AssignedParsed(ts1);
      var a := Assignment(v.name, 0, ParseAssigned(ts1).value.0);
      One(a);
      assert [Declaration(v), a][1..] == [a];
    }
  }

  lemma {:induction false} StatementsAppend(a: seq<Statement>, b: seq<Statement>)
    requires PrintableStatements(a) && PrintableStatements(b)
    ensures PrintableStatements(a + b)
    decreases |a|
  {
    if a == [] {
      assert a + b == b;
    } else {
      assert (a + b)[0] == a[0] && (a + b)[1..] == a[1..] + b;
      StatementsAppend(a[1..], b);
    }
  }

  lemma {:induction false} StatementsParsed(ts: Stream)
    requires |ts| <= LOOP_LIMIT && ParseStatements(ts).Some?
    ensures var (ss, rest) := ParseStatements(ts).value; PrintableStatements(ss) && |ss| + |rest| <= |ts|
    decreases |ts|, 6
  {
    if !EndsStatements(Head(ts)) {
      LoopParsed(SkipNewlines(ts), 0);
    }
  }

  lemma {:induction false} LoopParsed(ts: Stream, n: nat)
    requires |ts| <= LOOP_LIMIT && StatementLoop(ts, n).Some?
    ensures var (ss, rest) := StatementLoop(ts, n).value; PrintableStatements(ss) && |ss| + |rest| <= |ts|
    decreases |ts|, 5
  {
    hide ParseStatement;
    StatementParsed(ts);
    var (ss, ts1) := ParseStatement(ts).value;
    var ts2 := SkipNewlines(Tail(ts1));
    if !EndsStatements(Head(ts2)) && n < LOOP_LIMIT {
      LoopParsed(ts2, n + 1);
      StatementsAppend(ss, StatementLoop(ts2, n + 1).value.0);
    }
  }

  lemma {:induction false} StatementParsed(ts: Stream)
    requires |ts| <= LOOP_LIMIT && ParseStatement(ts).Some?
    ensures var (ss, rest) := ParseStatement(ts).value; PrintableStatements(ss) && 0 < |ss| && |ss| + |rest| <= |ts|
    decreases |ts|, 4
  {
    hide ParseCallOrAssignment, ParseDeclaration, ParseGroup, StarLoop, PrintableStatements;
    match Head(ts)
    case Star =>
      var (stars, ts1) := StarLoop(ts, 0, 0);
      StarsParsed(ts, 0, 0);
      CallOrAssignmentParsed(ts1, stars);
    case If =>
      GroupParsed(ts, true);
      One(Conditional(ParseGroup(ts, true).value.0));
    case Identifier =>
      CallOrAssignmentParsed(ts, 0);
    case _ =>
      DeclarationParsed(ts);
  }

  lemma {:induction false} GroupParsed(ts: Stream, start: bool)
    requires |ts| <= LOOP_LIMIT && ParseGroup(ts, start).Some?
    ensures var chain := ParseGroup(ts, start).value.0; chain != [] && PrintableChain(chain, start)
    decreases |ts|, 3
  {
    hide ParseBranch, PrintableBranch, Ahead;
    BranchParsed(SkipNewlines(ts), start);
    var (b, ts1) := ParseBranch(SkipNewlines(ts), start).value;
    var chain := ParseGroup(ts, start).value.0;
    assert chain[0] == b;
    if Ahead(ts1) == Lexing.Elif || Ahead(ts1) == Lexing.Else {
      GroupParsed(ts1, false);
      assert chain[1..] == ParseGroup(ts1, false).value.0;
    } else {
      assert chain[1..] == [];
    }
  }

  lemma {:induction false} BranchParsed(ts: Stream, start: bool)
    requires |ts| <= LOOP_LIMIT && ParseBranch(ts, start).Some?
    ensures PrintableBranch(ParseBranch(ts, start).value.0, start)
    decreases |ts|, 2
  {
    hide ParseBlock, ParseExpression, PrintableBlock, PrintableExpression;
    if Head(ts) == Lexing.Else {
      BlockParsed(Tail(ts));
    } else {
      ExpressionParsed(Tail(Tail(ts)));
      BlockParsed(Tail(ParseExpression(Tail(Tail(ts))).value.1));
    }
  }

  lemma {:induction false} BlockParsed(ts: Stream)
    requires |ts| <= LOOP_LIMIT && ParseBlock(ts).Some?
    ensures PrintableBlock(ParseBlock(ts).value.0)
    decreases |ts|, 1
  {
    hide ParseStatements, ParseExpression, PrintableStatements, PrintableExpression, SkipNewlines;
    var inner := SkipNewlines(Tail(SkipNewlines(ts)));
    StatementsParsed(inner);
    var ts1 := ParseStatements(inner).value.1;
    if Head(ts1) == Lexing.Return {
      ExpressionParsed(Tail(ts1));
    }
  }

  // ----- items -----

  predicate PrintableTop(top: Top) {
    match top
    case GlobalTop(v, c) => PrintableVariable(v) && (c.Some? ==> c.value.ConstInteger?)
    case FunctionTop(name, s, start) =>
      && PrintableVariable(Variable(s.typ, name)) && |s.parameters| <= LOOP_LIMIT
      && (forall p :: p in s.parameters ==> PrintableVariable(p))
      && (start.Some? ==> |start.value| <= LOOP_LIMIT)
  }

  lemma {:induction false} FunctionParsed(v: Variable, ts: Stream)
    requires |ts| <= LOOP_LIMIT && PrintableVariable(v) && ParseFunction(v, ts).Some?
    ensures PrintableTop(ParseFunction(v, ts).value.0)
  {
    hide PrintableVariable, SkipBody, Ahead;
    if Head(ts) != Lexing.RightParenthesis {
      ParametersParsed(ts, 0);
    }
  }

  // An initial value is an integer: in front of a string nothing ends the line.
  lemma {:induction false} TopParsed(ts: Stream)
    requires |ts| <= LOOP_LIMIT && ParseTop(ts).Some?
    ensures var (top, rest) := ParseTop(ts).value; PrintableTop(top) && |rest| + 2 <= |ts|
  {
    hide PrintableVariable, ParseFunction, ParseVariable;
    VariableParsed(ts);
    var (v, ts1) := ParseVariable(ts).value;
    if Head(ts1) == Lexing.LeftParenthesis {
      FunctionParsed(v, Tail(ts1));
    }
  }

  lemma {:induction false} TopsParsed(ts: Stream, n: nat)
    requires |ts| <= LOOP_LIMIT && TopLoop(ts, n).Some?
    ensures var tops := TopLoop(ts, n).value; (forall top :: top in tops ==> PrintableTop(top)) && 2 * |tops| <= |ts|
    decreases |ts|
  {
    hide PrintableTop, ParseTop, ParseDirective;
    if ts != [] {
      if DataTypeOf(Head(ts)).Some? {
        TopParsed(ts);
        if n < LOOP_LIMIT {
          TopsParsed(Tail(ParseTop(ts).value.1), n + 1);
        }
      } else if IsSeparator(Head(ts)) && n < LOOP_LIMIT {
        TopsParsed(Tail(ParseDirective(ts).1), n + 1);
      }
    }
  }

  // Within the limit of the loop that skips a body.
  predicate ShortBody(s: Analysis.Source) {
    s.FunctionSource? && s.body.Some? ==> |PrintBlock(s.body.value)| <= LOOP_LIMIT
  }

  lemma {:induction false} BodyParsed(top: Top)
    requires PrintableTop(top) && ParseBodyOf(top).Some? && ShortBody(ParseBodyOf(top).value)
    ensures PrintableSource(ParseBodyOf(top).value)
  {
    hide ParseBlock, PrintBlock;
    if top.FunctionTop? && top.start.Some? {
      BlockParsed(top.start.value);
    }
  }

  lemma {:induction false} BodiesParsed(tops: seq<Top>)
    requires (forall top :: top in tops ==> PrintableTop(top)) && ParseBodies(tops).Some?
    requires forall s :: s in ParseBodies(tops).value ==> ShortBody(s)
    ensures forall s :: s in ParseBodies(tops).value ==> PrintableSource(s)
    decreases |tops|
  {
    hide PrintableTop, ParseBodyOf, ShortBody, PrintableSource;
    if tops != [] {
      var s, others := ParseBodyOf(tops[0]).value, ParseBodies(tops[1..]).value;
      assert ParseBodies(tops).value == [s] + others;
      assert forall x :: x in others ==> x in ParseBodies(tops).value;
      BodyParsed(tops[0]);
      BodiesParsed(tops[1..]);
    }
  }

  // Every parsed unit has a layout, and from it the parser reads the same unit.
  lemma {:induction false} NormalForm(ts: Stream)
    requires |ts| < LOOP_LIMIT && Parse(ts).Some?
    requires forall s :: s in Parse(ts).value ==> ShortBody(s)
    ensures forall s :: s in Parse(ts).value ==> PrintableSource(s)
    ensures Parse(Print(Parse(ts).value)) == Parse(ts)
  {
    hide PrintableTop, ParseBodyOf, ShortBody, PrintableSource, TopLoop, ParseBodies, Print;
    TopsParsed(ts, 0);
    BodiesParsed(TopLoop(ts, 0).value);
    assert Parse(ts) == ParseBodies(TopLoop(ts, 0).value);
    TwoPasses.ParserRoundTrip(Parse(ts).value);
  }
}
