/**
  From the text of a file to a module (lib/Frontend/Compiler.cpp): lexer,
  parser, analyzer and generator in a row, and what that row promises.
 */
module Compiler {
  import opened Wrappers
  import opened Ir
  import opened Semantics
  import opened Relation
  import opened Items
  import opened Units
  import opened Analysis
  import opened Acceptance
  import opened Correctness
  import Lexing
  import Grammar
  import Parser
  import Generator
  import Interleaved
  import Endings
  import Spacing
  import NewlineRuns

  // What the passes make of a text whose strings are closed.
  datatype Unit = Unit(sources: seq<Source>, declarations: seq<Item>, bodies: seq<Item>, code: UnitGen)

  function CompileText(text: string): Option<Unit> {
    var ts :- Lexing.Tokens(text, 0);
    var sources :- Grammar.Parse(ts);
    var (declarations, bodies) :- Analyze(sources);
    var u :- LowerItems(EMPTY_UNIT, declarations + bodies);
    Some(Unit(sources, declarations, bodies, u))
  }

  // The functions of the module and the initial values of its globals.
  method Compile(text: string) returns (r: Option<(map<string, seq<BasicBlock>>, seq<Val>)>)
    requires Lexing.Tokens(text, 0).Some?
    ensures var u := CompileText(text); r == if u.Some? then Some((u.value.code.blocks, u.value.code.initial)) else None
  {
    var lexer := new Lexing.Lexer(text);
    var parser := new Parser.Parser(lexer);
    var parsed := parser.Parse();
    if !parsed {
      return None;
    }
    var analyzed := Analyze(parser.items);
    if analyzed == None {
      return None;
    }
    var (declarations, bodies) := analyzed.value;
    r := Generator.Generate(declarations + bodies);
  }

  // Two texts of the same tokens, whatever stands between them and however
  // many newlines there are, compile to the same, or both do not.
  lemma {:induction false} LayoutIgnored(a: seq<Spacing.Laid>, atEnd: seq<Spacing.Piece>, b: seq<Spacing.Laid>, atEnd': seq<Spacing.Piece>)
    requires Spacing.Readable(a, atEnd) && Spacing.Readable(b, atEnd') && |a| <= 1_000_000 && |b| <= 1_000_000
    requires NewlineRuns.Squeeze(Spacing.TokensOf(a)) == NewlineRuns.Squeeze(Spacing.TokensOf(b))
    ensures CompileText(Spacing.FreeText(a, atEnd)) == CompileText(Spacing.FreeText(b, atEnd'))
  {
    hide Spacing.FreeText, Spacing.Readable, Grammar.Parse, Analyze, LowerItems;
    Spacing.FreeLayout(a, atEnd);
    Spacing.FreeLayout(b, atEnd');
    NewlineRuns.RunsIgnored(Spacing.TokensOf(a));
    NewlineRuns.RunsIgnored(Spacing.TokensOf(b));
  }

  // With the analyzer called from inside the parser, piece by piece, the same
  // texts compile to the same module.
  lemma {:induction false} CompileInterleaved(text: string)
    requires Lexing.Tokens(text, 0).Some?
    ensures var items := Interleaved.ReadItems(Lexing.Tokens(text, 0).value); var u := CompileText(text);
            if items.None? then u.None?
            else u.Some? == LowerItems(EMPTY_UNIT, items.value.0 + items.value.1).Some?
                 && (u.Some? ==> u.value.declarations == items.value.0 && u.value.bodies == items.value.1
                                 && Some(u.value.code) == LowerItems(EMPTY_UNIT, items.value.0 + items.value.1))
  {
    Interleaved.InterleavedSame(Lexing.Tokens(text, 0).value);
  }

  // Every text of a depth-exact unit in SSA form compiles to a module that
  // computes what the source says, and nothing in it goes wrong.
  lemma {:induction false} TextCorrect(text: string, fuel: nat, name: string, vs: seq<Val>) returns (tv: Val, tm: seq<Val>)
    requires Lexing.Tokens(text, 0).Some? && Grammar.Parse(Lexing.Tokens(text, 0).value).Some?
    requires ExactSources(Grammar.Parse(Lexing.Tokens(text, 0).value).value)
    requires CompileText(text).Some? ==> UnitDominated(CompileText(text).value.declarations, CompileText(text).value.bodies)
    requires CompileText(text).Some? ==> IntegerCall(ProgramOf(CompileText(text).value.declarations, CompileText(text).value.bodies), name, vs)
    ensures CompileText(text).Some?
    ensures var u := CompileText(text).value; var P := ProgramOf(u.declarations, u.bodies);
            var run := Invoke(P, fuel, name, vs, InitialCells(u.declarations));
            && run != Wrong
            && (run.Ok? ==>
                  && Reaches(ModuleOf(u.declarations, u.code), Running(Frame(name, 0, 0, vs, map[]), [], u.code.initial), Halted(tv, tm))
                  && SameOutcome(P, name, |GlobalsOf(u.declarations)|, run.value, tv, tm))
  {
    var sources := Grammar.Parse(Lexing.Tokens(text, 0).value).value;
    var declarations, bodies := ExactAccepted(sources);
    NeverWrong(declarations, bodies, fuel, name, vs);
    tv, tm := Undef, [];
    if Invoke(ProgramOf(declarations, bodies), fuel, name, vs, InitialCells(declarations)).Ok? {
      tv, tm := CompilerCorrect(declarations, bodies, fuel, name, vs);
    }
  }

  // And when functions call downwards and variables get their values where
  // they are declared, every call halts with the result of the source.
  lemma {:induction false} TextReturns(text: string, R: Endings.Ranks, name: string, vs: seq<Val>) returns (tv: Val, tm: seq<Val>)
    requires Lexing.Tokens(text, 0).Some? && Grammar.Parse(Lexing.Tokens(text, 0).value).Some?
    requires ExactSources(Grammar.Parse(Lexing.Tokens(text, 0).value).value)
    requires CompileText(text).Some? ==> UnitDominated(CompileText(text).value.declarations, CompileText(text).value.bodies)
    requires CompileText(text).Some? ==> IntegerCall(ProgramOf(CompileText(text).value.declarations, CompileText(text).value.bodies), name, vs)
    requires CompileText(text).Some? ==> Endings.Ranked(ProgramOf(CompileText(text).value.declarations, CompileText(text).value.bodies), R, true)
    requires CompileText(text).Some? ==> Endings.GlobalsInitialised(CompileText(text).value.declarations)
    requires name in R
    ensures CompileText(text).Some?
    ensures var u := CompileText(text).value; var P := ProgramOf(u.declarations, u.bodies);
            var run := Invoke(P, R[name], name, vs, InitialCells(u.declarations));
            && run.Ok?
            && Reaches(ModuleOf(u.declarations, u.code), Running(Frame(name, 0, 0, vs, map[]), [], u.code.initial), Halted(tv, tm))
            && SameOutcome(P, name, |GlobalsOf(u.declarations)|, run.value, tv, tm)
  {
    hide Endings.Ranked, Invoke, ProgramOf, Reaches, InitialCells, UnitDominated, ExactSources;
    var sources := Grammar.Parse(Lexing.Tokens(text, 0).value).value;
    var declarations, bodies := ExactAccepted(sources);
    tv, tm := Endings.InitialisedReturns(declarations, bodies, R, name, vs);
  }
}
