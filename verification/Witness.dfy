/**
  One text to which the end-to-end theorem applies, and what it gives there.
 */
module Witness {
  import opened Wrappers
  import opened Ast
  import opened Ir
  import opened Lowering
  import opened Semantics
  import opened DepthExact
  import opened Items
  import opened Units
  import opened Materialise
  import opened Analysis
  import opened Frontend
  import opened Registration
  import opened Acceptance
  import opened Correctness
  import Lexing
  import Grammar
  import Printer
  import Text
  import TwoPasses
  import Compiler
  import Numbers
  import Endings

  const INT := Type(Int, false, 0)

  const A_PLUS_ONE := [Unit(None, Identifier("a", Plain, 0)), Unit(Some(Plus), IntegerLiteral("1"))]

  const READ_B := [Unit(None, Identifier("b", Plain, 0))]

  // The body, with expressions of type t.
  function BodyAt(t: Type): Block {
    Block([Declaration(Variable(INT, "b")), Assignment("b", 0, Expression(A_PLUS_ONE, t))], Some(Expression(READ_B, t)))
  }

  const SIGNATURE := Signature([Variable(INT, "a")], INT)

  const SOURCES := [FunctionSource("f", SIGNATURE, Some(BodyAt(NO_TYPE)))]

  const DECLARATIONS := [FunctionItem("f", SIGNATURE)]

  const BODIES := [BodyItem("f", BodyAt(INT))]

  const FUNCTIONS: Signatures := map["f" := SIGNATURE]

  const HEADER_TEXT := "int f ( int a ) { \n"

  const DECLARED_TEXT := "int b \n"

  const SUM_TEXT := "b = a + 1 \n"

  const END_TEXT := "return b \n} \n"

  const TEXT := HEADER_TEXT + (DECLARED_TEXT + SUM_TEXT) + END_TEXT

  // ----- depths -----

  lemma {:induction false} DepthsFit(T0: Depths)
    ensures BlockFits(FUNCTIONS, T0, map["a" := 0], 0, BodyAt(NO_TYPE))
  {
    var T: Depths := [map["a" := 0]] + T0;
    var T1: Depths := [map["a" := 0, "b" := 0]] + T0;
    var ss := BodyAt(NO_TYPE).statements;
    assert Declare(T, "b", 0) == T1;
    assert DepthStatement(FUNCTIONS, T, 0, ss[0]) == Some(T1);
    SumDepth(T1);
    assert DepthStatement(FUNCTIONS, T1, 0, ss[1]) == Some(T1);
    assert ss[1..][1..] == [] && DepthStatements(FUNCTIONS, T1, 0, []) == Some(T1);
    assert DepthStatements(FUNCTIONS, T1, 0, ss[1..]) == Some(T1);
    ReadDepth(T1);
  }

  lemma {:induction false} SumDepth(T: Depths)
    requires T != [] && T[0] == map["a" := 0, "b" := 0]
    ensures AssignmentFits(FUNCTIONS, T, "b", 0, Expression(A_PLUS_ONE, NO_TYPE))
  {
    assert LookupIn<nat>(T, "a") == Some(0) && LookupIn<nat>(T, "b") == Some(0) && Stoi("1") == Some(1);
    assert DepthOfUnit(FUNCTIONS, T, None, A_PLUS_ONE[0]) == Some(0) && DepthOfUnit(FUNCTIONS, T, Some(0), A_PLUS_ONE[1]) == Some(0);
    assert A_PLUS_ONE[1..][1..] == [] && DepthOfUnits(FUNCTIONS, T, Some(0), []) == Some(0);
    assert A_PLUS_ONE[1..][0] == A_PLUS_ONE[1] && DepthOfUnits(FUNCTIONS, T, Some(0), A_PLUS_ONE[1..]) == Some(0);
  }

  lemma {:induction false} ReadDepth(T: Depths)
    requires T != [] && T[0] == map["a" := 0, "b" := 0]
    ensures DepthOfExpression(FUNCTIONS, T, Expression(READ_B, NO_TYPE)) == Some(0)
  {
    assert LookupIn<nat>(T, "b") == Some(0);
    assert DepthOfUnit(FUNCTIONS, T, None, READ_B[0]) == Some(0);
    assert READ_B[1..] == [] && DepthOfUnits(FUNCTIONS, T, Some(0), []) == Some(0);
  }

  lemma {:induction false} Declared()
    ensures DeclarationItems(SOURCES) == DECLARATIONS && SourceSignatures(SOURCES) == FUNCTIONS && SourceGlobals(SOURCES) == map[]
    ensures GlobalsOf(DECLARATIONS) == [] && InitialsOf(DECLARATIONS) == []
  {
    assert DECLARATIONS[1..] == [] && SignaturesOf([]) == map[] && GlobalsOf([]) == [] && InitialsOf([]) == [];
  }

  lemma {:induction false} ParameterA()
    ensures var ps := SIGNATURE.parameters;
            && (forall base: nat :: ParameterNames(ps, base) == map["a" := base])
            && ParameterDepths(ps) == map["a" := 0] && ParameterTypes(ps) == Some(map["a" := INT])
  {
    var ps := SIGNATURE.parameters;
    forall base: nat ensures ParameterNames(ps, base) == map["a" := base] {
      assert ps[1..] == [] && ParameterNames([], base + 1) == map[];
    }
    assert ps[..|ps| - 1] == [] && ParameterTypes([]) == Some(map[]);
  }

  lemma {:induction false} Exact()
    ensures ExactSources(SOURCES)
  {
    hide BlockFits;
    Declared();
    ParameterA();
    DepthsFit([map[]]);
    assert GlobalDepths(map[]) == map[];
    Registered();
  }

  lemma {:induction false} Registered()
    ensures NewNames({}, GlobalNames(SOURCES)) && BagAgrees(multiset(FunctionsOf(SOURCES)))
  {
    var f := Named("f", EntryOf(SOURCES[0]));
    var none: seq<Source> := SOURCES[1..];
    assert none == [] && GlobalNames(none) == [] && FunctionsOf(none) == [];
    assert FunctionsOf(SOURCES) == [f] + [] == [f];
    assert multiset([f]) == multiset{f};
  }

  // ----- analysis -----

  lemma {:induction false} SumAnnotated(T: Types)
    requires T != [] && T[0] == map["a" := INT, "b" := INT]
    ensures AnnotateAssignment(FUNCTIONS, T, "b", 0, Expression(A_PLUS_ONE, NO_TYPE)) == Some(Assignment("b", 0, Expression(A_PLUS_ONE, INT)))
  {
    var us := A_PLUS_ONE;
    assert LookupIn<Type>(T, "a") == Some(INT) && LookupIn<Type>(T, "b") == Some(INT);
    assert AnnotateUnit(FUNCTIONS, T, us[0]) == Some(us[0]) && AnnotateUnit(FUNCTIONS, T, us[1]) == Some(us[1]);
    assert us[1..][0] == us[1] && us[1..][1..] == [] && AnnotateUnits(FUNCTIONS, T, []) == Some([]);
    assert AnnotateUnits(FUNCTIONS, T, us[1..]) == Some([us[1]] + []);
    assert us == [us[0]] + ([us[1]] + []) && AnnotateUnits(FUNCTIONS, T, us) == Some(us);
    assert UnitType(FUNCTIONS, T, None, us[0]) == Some(INT) && UnitType(FUNCTIONS, T, Some(INT), us[1]) == Some(INT);
    assert UnitsType(FUNCTIONS, T, Some(INT), []) == Some(INT) && UnitsType(FUNCTIONS, T, Some(INT), us[1..]) == Some(INT);
    assert UnitsType(FUNCTIONS, T, None, us) == Some(INT);
  }

  lemma {:induction false} ReadAnnotated(T: Types)
    requires T != [] && T[0] == map["a" := INT, "b" := INT]
    ensures AnnotateOptional(FUNCTIONS, T, Some(Expression(READ_B, NO_TYPE))) == Some(Some(Expression(READ_B, INT)))
  {
    var us := READ_B;
    assert LookupIn<Type>(T, "b") == Some(INT);
    assert AnnotateUnit(FUNCTIONS, T, us[0]) == Some(us[0]) && us[1..] == [] && AnnotateUnits(FUNCTIONS, T, []) == Some([]);
    assert us == [us[0]] + [] && AnnotateUnits(FUNCTIONS, T, us) == Some(us);
    assert UnitType(FUNCTIONS, T, None, us[0]) == Some(INT) && UnitsType(FUNCTIONS, T, Some(INT), []) == Some(INT);
    assert UnitsType(FUNCTIONS, T, None, us) == Some(INT);
  }

  lemma {:induction false} BodyAnnotated()
    ensures AnnotateBody(FUNCTIONS, map[], SIGNATURE, BodyAt(NO_TYPE)) == Some(BodyAt(INT))
  {
    hide AnnotateAssignment, AnnotateOptional;
    ParameterA();
    var raw, ss := BodyAt(NO_TYPE).statements, BodyAt(INT).statements;
    var T: Types := [map["a" := INT]] + [map[]];
    var T1: Types := [map["a" := INT, "b" := INT]] + [map[]];
    assert Declare(T, "b", INT) == T1;
    assert AnnotateStatement(FUNCTIONS, T, INT, raw[0]) == Some((ss[0], T1));
    SumAnnotated(T1);
    assert AnnotateStatement(FUNCTIONS, T1, INT, raw[1]) == Some((ss[1], T1));
    assert raw[1..][1..] == [] && AnnotateStatements(FUNCTIONS, T1, INT, []) == Some(([], T1));
    assert raw[1..][0] == raw[1] && AnnotateStatements(FUNCTIONS, T1, INT, raw[1..]) == Some(([ss[1]] + [], T1));
    assert [ss[0]] + ([ss[1]] + []) == ss;
    assert AnnotateStatements(FUNCTIONS, T, INT, raw) == Some((ss, T1));
    ReadAnnotated(T1);
  }

  lemma {:induction false} Analyzed()
    ensures Analyze(SOURCES) == Some((DECLARATIONS, BODIES))
  {
    hide AnnotateBody;
    Declared();
    BodyAnnotated();
    var empty, k := Known(map[], map[]), Known(map[], map["f" := EntryOf(SOURCES[0])]);
    assert SOURCES[1..] == [] && Register(k, []) == Some(k);
    assert RegisterOne(empty, SOURCES[0]) == Some(k) && Register(empty, SOURCES) == Some(k);
    assert SignaturesKnown(k) == FUNCTIONS;
    assert AnnotateBodies(FUNCTIONS, map[], []) == Some([]);
    assert AnnotateBodies(FUNCTIONS, map[], SOURCES) == Some([BODIES[0]] + []) && [BODIES[0]] + [] == BODIES;
  }

  // ----- the source semantics -----

  lemma {:induction false} ProgramIs()
    ensures ProgramOf(DECLARATIONS, BODIES) == Program(map["f" := Definition(SIGNATURE.parameters, INT, BodyAt(INT))], FUNCTIONS, map[])
  {
    Declared();
    assert DECLARATIONS[1..] == [] && BODIES[1..] == [];
    assert SignaturesOf([]) == map[] && SignaturesOf(DECLARATIONS) == FUNCTIONS;
    assert BodiesOf([]) == map[] && BodiesOf(BODIES) == map["f" := BodyAt(INT)];
  }

  lemma {:induction false} SumChecked(sc: Scopes, st: Statuses)
    requires sc == [map["a" := 0, "b" := 1], map[]] && st == [InRegister, InMemory]
    ensures CheckAssignment(sc, st, "b", Expression(A_PLUS_ONE, INT)) == Some(st)
  {
    assert LookupIn<nat>(sc, "a") == Some(0) && LookupIn<nat>(sc, "b") == Some(1) && st[1 := InMemory] == st;
    assert CheckUnit(sc, st, A_PLUS_ONE[0]) == Some(st) && CheckUnit(sc, st, A_PLUS_ONE[1]) == Some(st);
    assert A_PLUS_ONE[1..][0] == A_PLUS_ONE[1] && A_PLUS_ONE[1..][1..] == [] && CheckUnits(sc, st, []) == Some(st);
    assert CheckUnits(sc, st, A_PLUS_ONE[1..]) == Some(st) && CheckUnits(sc, st, A_PLUS_ONE) == Some(st);
  }

  lemma {:induction false} ReadChecked(sc: Scopes, st: Statuses)
    requires sc == [map["a" := 0, "b" := 1], map[]] && st == [InRegister, InMemory]
    ensures CheckExpression(sc, st, Expression(READ_B, INT)) == Some(st)
  {
    assert LookupIn<nat>(sc, "b") == Some(1);
    assert CheckUnit(sc, st, READ_B[0]) == Some(st) && READ_B[1..] == [] && CheckUnits(sc, st, []) == Some(st);
    assert CheckUnits(sc, st, READ_B) == Some(st);
  }

  lemma {:induction false} BodyChecked()
    ensures CheckBlock([map[]], [InRegister], map["a" := 0], BodyAt(INT)) == Some([InRegister, InMemory])
  {
    hide CheckAssignment, CheckExpression;
    var sc: Scopes, st := [map["a" := 0]] + [map[]], [InRegister];
    var sc1: Scopes, st1 := [map["a" := 0, "b" := 1], map[]], [InRegister, InMemory];
    var ss := BodyAt(INT).statements;
    assert Declare(sc, "b", 1) == sc1 && st + [InMemory] == st1;
    assert CheckStatement(Tracked(sc, st), ss[0]) == Some(Tracked(sc1, st1));
    SumChecked(sc1, st1);
    assert CheckStatement(Tracked(sc1, st1), ss[1]) == Some(Tracked(sc1, st1));
    assert ss[1..][0] == ss[1] && ss[1..][1..] == [] && CheckStatements(Tracked(sc1, st1), []) == Some(Tracked(sc1, st1));
    assert CheckStatements(Tracked(sc1, st1), ss[1..]) == Some(Tracked(sc1, st1));
    assert CheckStatements(Tracked(sc, st), ss) == Some(Tracked(sc1, st1));
    ReadChecked(sc1, st1);
  }

  lemma {:induction false} Safe()
    ensures UnitSafe(DECLARATIONS, BODIES)
  {
    hide CheckBlock;
    ProgramIs();
    Declared();
    ParameterA();
    BodyChecked();
    assert EntryStatuses(0, 1) == [InRegister];
  }

  lemma {:induction false} SumEvaluates(P: Program, env: Env, mem: Mem, n: int)
    requires env == [map["a" := 0, "b" := 1], map[]] && mem == [Cell(0, IntV(n)), Cell(0, Undef)]
    ensures EvalExpression(P, 0, env, mem, Expression(A_PLUS_ONE, INT)) == Ok((IntV(Wrap32(n + 1)), mem))
  {
    assert LookupIn<nat>(env, "a") == Some(0) && Stoi("1") == Some(1);
    assert EvalUnit(P, 0, env, mem, None, A_PLUS_ONE[0]) == Ok((IntV(n), mem));
    assert EvalUnit(P, 0, env, mem, Some(IntV(n)), A_PLUS_ONE[1]) == Ok((IntV(Wrap32(n + 1)), mem));
    assert A_PLUS_ONE[1..][0] == A_PLUS_ONE[1] && A_PLUS_ONE[1..][1..] == [];
    assert EvalUnits(P, 0, env, mem, Some(IntV(Wrap32(n + 1))), []) == Ok((IntV(Wrap32(n + 1)), mem));
    assert EvalUnits(P, 0, env, mem, Some(IntV(n)), A_PLUS_ONE[1..]) == Ok((IntV(Wrap32(n + 1)), mem));
  }

  lemma {:induction false} ReadEvaluates(P: Program, env: Env, mem: Mem, v: Val)
    requires env == [map["a" := 0, "b" := 1], map[]] && |mem| == 2 && mem[1] == Cell(0, v) && v != Undef
    ensures EvalExpression(P, 0, env, mem, Expression(READ_B, INT)) == Ok((v, mem))
  {
    assert LookupIn<nat>(env, "b") == Some(1);
    assert EvalUnit(P, 0, env, mem, None, READ_B[0]) == Ok((v, mem));
    assert READ_B[1..] == [] && EvalUnits(P, 0, env, mem, Some(v), []) == Ok((v, mem));
  }

  lemma {:induction false} SourceRuns(n: int)
    ensures var P := ProgramOf(DECLARATIONS, BODIES); var v := IntV(Wrap32(n + 1));
            Invoke(P, 0, "f", [IntV(n)], []) == Ok((v, [Cell(0, IntV(n)), Cell(0, v)]))
  {
    hide EvalExpression;
    ProgramIs();
    ParameterA();
    var P, v := ProgramOf(DECLARATIONS, BODIES), IntV(Wrap32(n + 1));
    var env, mem := [map["a" := 0]] + [map[]], [Cell(0, IntV(n))];
    var env1, mem1, mem2 := [map["a" := 0, "b" := 1], map[]], [Cell(0, IntV(n)), Cell(0, Undef)], [Cell(0, IntV(n)), Cell(0, v)];
    var ss := BodyAt(INT).statements;
    assert [] + ParameterCells(SIGNATURE.parameters, [IntV(n)]) == mem;
    assert Declare(env, "b", 1) == env1 && mem + [Cell(0, Undef)] == mem1;
    assert ExecStatement(P, 0, env, mem, ss[0]) == Ok(Next(env1, mem1));
    SumEvaluates(P, env1, mem1, n);
    assert LookupIn<nat>(env1, "b") == Some(1) && Chase(mem1, 1, 0) == Ok(1) && mem1[1 := mem1[1].(val := v)] == mem2;
    assert ExecStatement(P, 0, env1, mem1, ss[1]) == Ok(Next(env1, mem2));
    assert ss[1..][0] == ss[1] && ss[1..][1..] == [] && ExecStatements(P, 0, env1, mem2, []) == Ok(Next(env1, mem2));
    assert ExecStatements(P, 0, env1, mem1, ss[1..]) == Ok(Next(env1, mem2));
    assert ExecStatements(P, 0, env, mem, ss) == Ok(Next(env1, mem2));
    ReadEvaluates(P, env1, mem2, v);
    assert ExecReturn(P, 0, env1, mem2, BodyAt(INT)) == Ok(Returned(v, mem2));
  }

  // ----- the text -----

  const NAMED := [Printer.Mark(Lexing.IntType), Printer.Name("f"), Printer.Mark(Lexing.LeftParenthesis)]

  const PARAMETER := [Printer.Mark(Lexing.IntType), Printer.Name("a"), Printer.Mark(Lexing.RightParenthesis)]

  const OPENED := [Printer.Mark(Lexing.LeftCurlyBrace), Lexing.NEWLINE]

  const DECLARED := [Printer.Mark(Lexing.IntType), Printer.Name("b"), Lexing.NEWLINE]

  const TARGET := [Printer.Name("b"), Printer.Mark(Lexing.Equal), Printer.Name("a")]

  const ADDED := [Printer.Mark(Lexing.Plus), Lexing.Token(Lexing.IntegerLiteral, "1"), Lexing.NEWLINE]

  const RETURNED := [Printer.Mark(Lexing.Return), Printer.Name("b"), Lexing.NEWLINE]

  const CLOSED := [Printer.Mark(Lexing.RightCurlyBrace), Lexing.NEWLINE]

  const TOKENS := (NAMED + PARAMETER + OPENED) + (DECLARED + (TARGET + ADDED)) + (RETURNED + CLOSED)

  lemma {:induction false} PrintedIs()
    ensures Printer.Print(SOURCES) == TOKENS
  {
    var b := BodyAt(NO_TYPE);
    var ss := b.statements;
    assert Printer.Repeat(Lexing.Ampersand, 0) == [] && Printer.Repeat(Lexing.Star, 0) == [];
    assert Printer.PrintStatement(ss[0]) + [Lexing.NEWLINE] == DECLARED;
    assert A_PLUS_ONE[1..][1..] == [] && Printer.PrintUnits(A_PLUS_ONE[1..]) == [Printer.Mark(Lexing.Plus), Lexing.Token(Lexing.IntegerLiteral, "1")];
    assert Printer.PrintUnits(A_PLUS_ONE) == [Printer.Name("a"), Printer.Mark(Lexing.Plus), Lexing.Token(Lexing.IntegerLiteral, "1")];
    assert Printer.PrintStatement(ss[1]) + [Lexing.NEWLINE] == TARGET + ADDED;
    assert ss[1..][0] == ss[1] && ss[1..][1..] == [] && Printer.PrintStatements(ss[1..]) == TARGET + ADDED;
    assert Printer.PrintStatements(ss) == DECLARED + (TARGET + ADDED);
    assert READ_B[1..] == [] && Printer.PrintReturn(b.returnValue) == RETURNED;
    var ps := SIGNATURE.parameters;
    assert ps[1..] == [] && Printer.PrintParameters(ps) == [Printer.Mark(Lexing.IntType), Printer.Name("a")];
    assert SOURCES[1..] == [] && Printer.Print([]) == [];
    var close := [Printer.Mark(Lexing.RightCurlyBrace)];
    assert Printer.PrintBlock(b) == OPENED + (DECLARED + (TARGET + ADDED)) + RETURNED + close;
    assert Printer.PrintSource(SOURCES[0]) + [Lexing.NEWLINE] == TOKENS;
  }

  lemma {:induction false} TextAppend(a: seq<Lexing.Token>, b: seq<Lexing.Token>)
    ensures Text.TextOf(a + b) == Text.TextOf(a) + Text.TextOf(b)
    decreases |a|
  {
    if a == [] {
      assert a + b == b;
    } else {
      assert (a + b)[1..] == a[1..] + b;
      TextAppend(a[1..], b);
    }
  }

  lemma {:induction false} Two(a: Lexing.Token, b: Lexing.Token)
    ensures Text.TextOf([a, b]) == Text.Spelling(a) + Text.GapAfter(a) + (Text.Spelling(b) + Text.GapAfter(b))
  {
    hide Text.Spelling;
    assert [a, b][1..] == [b] && [b][1..] == [] && Text.TextOf([]) == "";
  }

  lemma {:induction false} Three(a: Lexing.Token, b: Lexing.Token, c: Lexing.Token)
    ensures Text.TextOf([a, b, c]) ==
            Text.Spelling(a) + Text.GapAfter(a) + (Text.Spelling(b) + Text.GapAfter(b) + (Text.Spelling(c) + Text.GapAfter(c)))
  {
    hide Text.Spelling;
    Two(b, c);
    assert [a, b, c][1..] == [b, c];
  }

  lemma {:induction false} HeaderText()
    ensures Text.TextOf(NAMED + PARAMETER + OPENED) == HEADER_TEXT
  {
    hide Text.TextOf;
    Three(NAMED[0], NAMED[1], NAMED[2]);
    Three(PARAMETER[0], PARAMETER[1], PARAMETER[2]);
    Two(OPENED[0], OPENED[1]);
    TextAppend(NAMED, PARAMETER);
    TextAppend(NAMED + PARAMETER, OPENED);
  }

  lemma {:induction false} DeclaredText()
    ensures Text.TextOf(DECLARED) == DECLARED_TEXT
  {
    hide Text.TextOf;
    Three(DECLARED[0], DECLARED[1], DECLARED[2]);
  }

  lemma {:induction false} SumText()
    ensures Text.TextOf(TARGET + ADDED) == SUM_TEXT
  {
    hide Text.TextOf;
    Three(TARGET[0], TARGET[1], TARGET[2]);
    Three(ADDED[0], ADDED[1], ADDED[2]);
    TextAppend(TARGET, ADDED);
  }

  lemma {:induction false} EndText()
    ensures Text.TextOf(RETURNED + CLOSED) == END_TEXT
  {
    hide Text.TextOf;
    Three(RETURNED[0], RETURNED[1], RETURNED[2]);
    Two(CLOSED[0], CLOSED[1]);
    TextAppend(RETURNED, CLOSED);
  }

  lemma {:induction false} TextIs()
    ensures Text.Printed(TOKENS) == TEXT
  {
    hide Text.TextOf, NAMED, PARAMETER, OPENED, DECLARED, TARGET, ADDED, HEADER_TEXT, DECLARED_TEXT, SUM_TEXT,
      END_TEXT;
    var header, statements, end := NAMED + PARAMETER + OPENED, DECLARED + (TARGET + ADDED), RETURNED + CLOSED;
    HeaderText();
    DeclaredText();
    SumText();
    TextAppend(DECLARED, TARGET + ADDED);
    EndText();
    TextAppend(header, statements);
    TextAppend(header + statements, end);
  }

  lemma {:induction false} LegalTokens()
    ensures forall t :: t in TOKENS ==> Text.Legal(t)
  {
    LegalNames();
    forall t | t in TOKENS ensures Text.Legal(t) {
      assert t in NAMED + PARAMETER + OPENED || t in DECLARED + (TARGET + ADDED) || t in RETURNED + CLOSED;
    }
  }

  lemma {:induction false} LegalNames()
    ensures Text.Legal(Printer.Name("f")) && Text.Legal(Printer.Name("a")) && Text.Legal(Printer.Name("b"))
    ensures Text.Legal(Lexing.Token(Lexing.IntegerLiteral, "1"))
  {}

  lemma {:induction false} ExpressionsPrintable()
    ensures Printer.PrintableExpression(Expression(A_PLUS_ONE, NO_TYPE)) && Printer.PrintableExpression(Expression(READ_B, NO_TYPE))
  {
    assert Printer.PrintableUnits([], false);
    assert A_PLUS_ONE[1..] == [A_PLUS_ONE[1]] && [A_PLUS_ONE[1]][1..] == [] && Printer.PrintableUnit(A_PLUS_ONE[1], false);
    assert Printer.PrintableUnits([A_PLUS_ONE[1]], false);
    assert READ_B[1..] == [] && Printer.PrintableUnit(READ_B[0], true);
  }

  lemma {:induction false} Printable()
    ensures Printer.PrintableSource(SOURCES[0])
  {
    hide Printer.PrintableExpression;
    var b := BodyAt(NO_TYPE);
    var ss := b.statements;
    ExpressionsPrintable();
    assert Printer.PrintableStatements([]);
    assert ss[1..] == [ss[1]] && [ss[1]][1..] == [] && Printer.PrintableStatement(ss[1]) && Printer.PrintableStatement(ss[0]);
    assert Printer.PrintableStatements([ss[1]]) && Printer.PrintableStatements(ss);
    assert Printer.PrintableBlock(b);
    PrintedIs();
    assert SOURCES[1..] == [] && Printer.Print([]) == [] && |Printer.PrintBlock(b)| <= |Printer.Print(SOURCES)|;
  }

  // The hypotheses of the end-to-end theorem hold of this text, and by it the
  // emitted module adds one to every 32-bit integer; the largest wraps around.
  lemma {:induction false} TextRuns(n: int) returns (tm: seq<Val>)
    requires -0x8000_0000 <= n < 0x8000_0000
    ensures Lexing.Tokens(TEXT, 0).Some? && Grammar.Parse(Lexing.Tokens(TEXT, 0).value) == Some(SOURCES) && ExactSources(SOURCES)
    ensures Compiler.CompileText(TEXT).Some?
    ensures var u := Compiler.CompileText(TEXT).value;
            && u.declarations == DECLARATIONS && u.bodies == BODIES && UnitDominated(DECLARATIONS, BODIES)
            && Reaches(ModuleOf(DECLARATIONS, u.code), Running(Frame("f", 0, 0, [IntV(n)], map[]), [], u.code.initial),
                       Halted(IntV(if n == 0x7fff_ffff then -0x8000_0000 else n + 1), tm))
  {
    hide BodyAt, Printer.Print, Text.Printed, Printer.PrintableSource, Text.Legal, ExactSources, Analyze, UnitSafe, UnitDominated, Invoke;
    TextIs();
    PrintedIs();
    LegalTokens();
    Printable();
    TwoPasses.TextRoundTrip(SOURCES);
    Exact();
    Analyzed();
    var declarations, bodies := ExactAccepted(SOURCES);
    Safe();
    UnitSafeExact(DECLARATIONS, BODIES);
    ProgramIs();
    Declared();
    Numbers.WrapExact(n + 1, if n == 0x7fff_ffff then -0x8000_0000 else n + 1);
    SourceRuns(n);
    var tv: Val;
    tv, tm := Compiler.TextCorrect(TEXT, 0, "f", [IntV(n)]);
  }

  // Its function calls nothing, and its variable gets its value at once.
  lemma {:induction false} Tamed()
    ensures Endings.Ranked(ProgramOf(DECLARATIONS, BODIES), map["f" := 0], true) && Endings.GlobalsInitialised(DECLARATIONS)
  {
    var R: Endings.Ranks := map["f" := 0];
    var names := ParameterNames(SIGNATURE.parameters, 0).Keys;
    var ss, us := BodyAt(INT).statements, A_PLUS_ONE;
    ProgramIs();
    ParameterA();
    assert READ_B[1..] == [] && Endings.TameUnits(R, 0, {}, READ_B);
    assert us[1..][0] == us[1] && us[1..][1..] == [] && Endings.TameUnits(R, 0, {"b"}, []);
    assert Endings.TameUnits(R, 0, {"b"}, us[1..]) && Endings.TameUnits(R, 0, {"b"}, us);
    assert ss[2..] == [] && Endings.TamePair(R, 0, names, ss[0].variable, ss[1]);
    assert Endings.TameStatements(R, 0, true, names, ss);
  }
}
