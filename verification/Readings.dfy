/**
  The other direction of Derivations: every text that follows the rules is
  read, and read as its tree. With it the blocks that the parser accepts are
  exactly these texts.
 */
module Readings {
  import opened Wrappers
  import opened Ast
  import Lexing
  import opened Prefixes
  import opened Indirections
  import opened Grammar
  import opened Printer
  import opened Derivations
  import RoundTrip
  import NewlineRuns

  // ----- expressions -----

  lemma {:induction false} SignsTurn(sign: Sign, rest: Stream, m: nat)
    requires m > 0
    ensures Signs([Mark(if sign == Amp then Lexing.Ampersand else Lexing.Star)] + rest, m) == [sign] + Signs(rest, m - 1)
  {
    RoundTrip.HeadOf(Mark(if sign == Amp then Lexing.Ampersand else Lexing.Star), rest);
  }

  lemma {:induction false} NoSigns(rest: Stream, m: nat)
    requires SignOf(Head(rest)) == None
    ensures Signs(rest, m) == []
  {}

  lemma {:induction false} SpellCons(signs: seq<Sign>, rest: Stream)
    requires signs != []
    ensures SpellSigns(signs) + rest == [Mark(if signs[0] == Amp then Lexing.Ampersand else Lexing.Star)] + (SpellSigns(signs[1..]) + rest)
  {}

  lemma {:induction false} SignsAre(signs: seq<Sign>, rest: Stream, m: nat)
    requires SignOf(Head(rest)) == None && |signs| <= m
    ensures Signs(SpellSigns(signs) + rest, m) == signs
    decreases |signs|
  {
    hide Signs;
    if signs == [] {
      assert SpellSigns(signs) + rest == rest;
      NoSigns(rest, m);
    } else {
      hide SpellSigns;
      SpellCons(signs, rest);
      SignsTurn(signs[0], SpellSigns(signs[1..]) + rest, m);
      SignsAre(signs[1..], rest, m - 1);
    }
  }

  lemma {:induction false} SignsLoop(signs: seq<Sign>, rest: Stream)
    requires SignOf(Head(rest)) == None && |signs| <= 1_000_000
    requires NoDoubleAmp(signs) && forall k :: 0 <= k <= |signs| ==> InLimit(CountAt(signs, k))
    ensures PrefixLoop(SpellSigns(signs) + rest, 0, false, 0) == Some((Net(signs), rest))
  {
    hide InLimit, CountAt, NoDoubleAmp, PrefixLoop, Net;
    var ts := SpellSigns(signs) + rest;
    SignsAre(signs, rest, TURNS);
    PrefixExact(ts);
    assert ts[|signs|..] == rest;
  }

  // What may follow an operand, and what an expression.
  predicate Follows(rest: Stream) { Head(rest) != Lexing.LeftParenthesis && !IsOperator(Head(rest)) }

  lemma {:induction false} OperandReads(o: OperandText, rest: Stream)
    requires RightOperand(o) && |SpellOperand(o) + rest| <= 1_000_000 && Head(rest) != Lexing.LeftParenthesis
    ensures ParseOperand(SpellOperand(o) + rest) == Some((OperandOf(o), rest))
    decreases o, 1
  {
    hide PrefixLoop, ParseCall, InLimit, CountAt, NoDoubleAmp, Net, RightCall, SpellCall;
    var more := SpellAtom(o.atom) + rest;
    Grouped(SpellSigns(o.signs), SpellAtom(o.atom), rest);
    match o.atom
    case CallAtom(call) =>
      CallStarts(call, rest);
      CallReads(call, rest);
      SignsLoop(o.signs, more);
    case NameAtom(name) =>
      RoundTrip.HeadOf(Name(name), rest);
      SignsLoop(o.signs, more);
    case IntegerAtom(digits) =>
      RoundTrip.HeadOf(Lexing.Token(Lexing.IntegerLiteral, digits), rest);
      SignsLoop(o.signs, more);
    case StringAtom(text) =>
      RoundTrip.HeadOf(Lexing.Token(Lexing.StringLiteral, text), rest);
      SignsLoop(o.signs, more);
  }

  function BehindName(call: CallText, rest: Stream): Stream {
    [Mark(Lexing.LeftParenthesis)] + (SpellArguments(call.arguments) + ([Mark(Lexing.RightParenthesis)] + rest))
  }

  lemma {:induction false} CallStarts(call: CallText, rest: Stream)
    ensures SpellCall(call) + rest == [Name(call.name)] + BehindName(call, rest)
    ensures var ts := SpellCall(call) + rest;
            Head(ts) == Lexing.Identifier && Value(ts) == call.name && Tail(ts) == BehindName(call, rest) && Head(Tail(ts)) == Lexing.LeftParenthesis
  {
    hide SpellArguments;
    assert SpellCall(call) + rest == [Name(call.name)] + BehindName(call, rest);
    RoundTrip.HeadOf(Name(call.name), BehindName(call, rest));
    RoundTrip.HeadOf(Mark(Lexing.LeftParenthesis), SpellArguments(call.arguments) + ([Mark(Lexing.RightParenthesis)] + rest));
  }

  lemma {:induction false} CallReads(call: CallText, rest: Stream)
    requires RightCall(call) && |SpellCall(call) + rest| <= 1_000_000
    ensures ParseCall(call.name, BehindName(call, rest)) == Some((CallOf(call), rest))
    decreases call, 1
  {
    hide ParseArguments, SpellArguments, RightArguments;
    var close := [Mark(Lexing.RightParenthesis)] + rest;
    var inner := SpellArguments(call.arguments) + close;
    CallStarts(call, rest);
    RoundTrip.HeadOf(Mark(Lexing.LeftParenthesis), inner);
    RoundTrip.HeadOf(Mark(Lexing.RightParenthesis), rest);
    if call.arguments == [] {
      NoArguments();
      assert inner == close;
    } else {
      ArgumentsReads(call.arguments, close, 0);
      ArgumentsStart(call.arguments, close);
    }
  }

  // An expression begins with a sign, a name or a literal.
  predicate StartsExpression(t: Kind) {
    t == Lexing.Ampersand || t == Lexing.Star || t == Lexing.Identifier || t == Lexing.IntegerLiteral || t == Lexing.StringLiteral
  }

  lemma {:induction false} OperandStarts(o: OperandText, rest: Stream)
    ensures StartsExpression(Head(SpellOperand(o) + rest))
  {
    if o.signs == [] {
      assert SpellOperand(o) + rest == SpellAtom(o.atom) + rest;
    } else {
      assert (SpellOperand(o) + rest)[0] == SpellSigns(o.signs)[0];
    }
  }

  lemma {:induction false} ExpressionStarts(e: ExpressionText, rest: Stream)
    requires RightExpression(e)
    ensures StartsExpression(Head(SpellExpression(e) + rest)) && |SpellExpression(e)| > 0
  {
    hide SpellOperand;
    var u, others := e.units[0], SpellUnits(e.units[1..]);
    assert RightUnit(u, true);
    assert SpellUnit(u) == [] + SpellOperand(u.operand) == SpellOperand(u.operand);
    assert SpellExpression(e) + rest == SpellOperand(u.operand) + (others + rest);
    OperandStarts(u.operand, others + rest);
    OperandStarts(u.operand, []);
    assert SpellOperand(u.operand) + [] == SpellOperand(u.operand);
  }

  lemma {:induction false} ArgumentsStart(es: seq<ExpressionText>, rest: Stream)
    requires es != [] && RightArguments(es)
    ensures StartsExpression(Head(SpellArguments(es) + rest))
  {
    hide SpellExpression, RightExpression;
    var more := (if |es| == 1 then [] else [Mark(Lexing.Comma)]) + SpellArguments(es[1..]);
    assert SpellArguments(es) == SpellExpression(es[0]) + more;
    Grouped(SpellExpression(es[0]), more, rest);
    ExpressionStarts(es[0], more + rest);
  }

  lemma {:induction false} UnitReads(u: UnitText, rest: Stream, first: bool)
    requires RightUnit(u, first) && |SpellUnit(u) + rest| <= 1_000_000 && Head(rest) != Lexing.LeftParenthesis
    ensures ParseUnit(SpellUnit(u) + rest, first) == Some((UnitOf(u), rest))
    decreases u, 2
  {
    hide ParseOperand, RightOperand, SpellOperand;
    if first {
      assert SpellUnit(u) == SpellOperand(u.operand);
    } else {
      Grouped([Mark(OperatorKind(u.operation.value))], SpellOperand(u.operand), rest);
      RoundTrip.HeadOf(Mark(OperatorKind(u.operation.value)), SpellOperand(u.operand) + rest);
    }
    OperandReads(u.operand, rest);
  }

  // A later unit begins with its operator.
  lemma {:induction false} LaterUnit(us: seq<UnitText>, rest: Stream)
    requires us != [] && RightUnits(us, false)
    ensures IsOperator(Head(SpellUnits(us) + rest)) && Head(SpellUnits(us) + rest) != Lexing.LeftParenthesis
  {
    hide SpellOperand, RightOperand;
    assert RightUnit(us[0], false);
    UnitSome(us[0], false);
    assert (SpellUnits(us) + rest)[0] == SpellUnit(us[0])[0] == Mark(OperatorKind(us[0].operation.value));
  }

  lemma {:induction false} UnitsReads(us: seq<UnitText>, rest: Stream, first: bool, n: nat)
    requires us != [] && RightUnits(us, first) && n + |SpellUnits(us) + rest| <= 1_000_000 && Follows(rest)
    ensures ParseUnits(SpellUnits(us) + rest, first, n) == Some((UnitsOf(us), rest))
    decreases us, 0
  {
    hide ParseUnit, RightUnit, SpellUnit;
    var more := SpellUnits(us[1..]) + rest;
    Grouped(SpellUnit(us[0]), SpellUnits(us[1..]), rest);
    if |us| == 1 {
      assert us[1..] == [] && SpellUnits([]) == [] && UnitsOf([]) == [] && more == rest;
      UnitReads(us[0], rest, first);
      assert UnitsOf(us) == [UnitOf(us[0])];
    } else {
      LaterUnit(us[1..], rest);
      UnitReads(us[0], more, first);
      UnitSome(us[0], first);
      UnitsReads(us[1..], rest, false, n + 1);
    }
  }

  lemma {:induction false} UnitSome(u: UnitText, first: bool)
    ensures |SpellUnit(u)| > 0
  {
    hide SpellOperand;
    OperandStarts(u.operand, []);
    assert SpellOperand(u.operand) + [] == SpellOperand(u.operand);
  }

  lemma {:induction false} ExpressionReads(e: ExpressionText, rest: Stream)
    requires RightExpression(e) && |SpellExpression(e) + rest| <= 1_000_000 && Follows(rest)
    ensures ParseExpression(SpellExpression(e) + rest) == Some((ExpressionOf(e), rest))
    decreases e, 1
  {
    hide ParseUnits, SpellUnits, RightUnits;
    UnitsReads(e.units, rest, true, 0);
  }

  lemma {:induction false} ArgumentsCons(e: ExpressionText, others: seq<ExpressionText>)
    ensures ArgumentsOf([e] + others) == [ExpressionOf(e)] + ArgumentsOf(others)
    ensures RightArguments([e] + others) <==> RightExpression(e) && RightArguments(others)
    ensures SpellArguments([e] + others)
            == if others == [] then SpellExpression(e) else SpellExpression(e) + ([Mark(Lexing.Comma)] + SpellArguments(others))
  {
    hide SpellExpression, RightExpression, ExpressionOf;
    var es := [e] + others;
    assert es[0] == e && es[1..] == others;
    if others == [] {
      NoArguments();
    }
  }

  lemma {:induction false} ArgumentsTurn(ts: Stream, n: nat)
    requires ParseExpression(ts).Some? && n < 1_000_000
    ensures var (e, ts1) := ParseExpression(ts).value;
            ParseArguments(ts, n) ==
            if Head(ts1) == Lexing.RightParenthesis then Some(([e], ts1))
            else if Head(ts1) != Lexing.Comma then None
            else
              var others := ParseArguments(Tail(ts1), n + 1);
              if others.None? then None else Some(([e] + others.value.0, others.value.1))
  {
    hide ParseExpression;
  }

  lemma {:induction false} ArgumentsReads(es: seq<ExpressionText>, rest: Stream, n: nat)
    requires es != [] && RightArguments(es) && n + |SpellArguments(es) + rest| <= 1_000_000 && Head(rest) == Lexing.RightParenthesis
    ensures ParseArguments(SpellArguments(es) + rest, n) == Some((ArgumentsOf(es), rest))
    decreases es, 0
  {
    hide ParseExpression, RightExpression, SpellExpression, ParseArguments, SpellArguments, ArgumentsOf, RightArguments;
    var e, others := es[0], es[1..];
    assert es == [e] + others;
    ArgumentsCons(e, others);
    assert rest != [];
    if others == [] {
      ExpressionReads(e, rest);
      NoArguments();
      assert [ExpressionOf(e)] + [] == [ExpressionOf(e)];
    } else {
      var more := SpellArguments(others) + rest;
      Grouped([Mark(Lexing.Comma)], SpellArguments(others), rest);
      Grouped(SpellExpression(e), [Mark(Lexing.Comma)] + SpellArguments(others), rest);
      RoundTrip.HeadOf(Mark(Lexing.Comma), more);
      ExpressionReads(e, [Mark(Lexing.Comma)] + more);
      ArgumentsReads(others, rest, n + 1);
    }
    ArgumentsTurn(SpellArguments(es) + rest, n);
  }

  // ----- statements -----

  lemma {:induction false} AssignedReads(e: ExpressionText, rest: Stream)
    requires RightExpression(e) && |SpellExpression(e) + rest| < 1_000_000 && Head(rest) == Lexing.Newline
    ensures ParseAssigned([Mark(Lexing.Equal)] + (SpellExpression(e) + rest)) == Some((ExpressionOf(e), rest))
  {
    hide ParseExpression, SpellExpression, RightExpression;
    RoundTrip.HeadOf(Mark(Lexing.Equal), SpellExpression(e) + rest);
    ExpressionReads(e, rest);
  }

  lemma {:induction false} VariableReads(v: Variable, rest: Stream)
    requires RightVariable(v) && |PrintVariable(v) + rest| <= 1_000_000
    ensures ParseVariable(PrintVariable(v) + rest) == Some((v, rest)) && DataTypeOf(Head(PrintVariable(v) + rest)).Some?
  {
    RoundTrip.VariableRead(v, rest);
  }

  lemma {:induction false} DeclarationReads(s: StatementText, rest: Stream)
    requires (s.DeclareText? || s.DefineText?) && RightStatement(s) && |SpellStatement(s) + rest| <= 1_000_000 && Head(rest) == Lexing.Newline
    ensures ParseStatement(SpellStatement(s) + rest) == Some((StatementsOf(s), rest))
  {
    hide ParseVariable, ParseAssigned, PrintVariable, SpellExpression, RightExpression, RightVariable;
    if s.DeclareText? {
      VariableReads(s.variable, rest);
    } else {
      var more := [Mark(Lexing.Equal)] + (SpellExpression(s.value) + rest);
      Grouped([Mark(Lexing.Equal)], SpellExpression(s.value), rest);
      Grouped(PrintVariable(s.variable), [Mark(Lexing.Equal)] + SpellExpression(s.value), rest);
      VariableReads(s.variable, more);
      RoundTrip.HeadOf(Mark(Lexing.Equal), SpellExpression(s.value) + rest);
      AssignedReads(s.value, rest);
    }
  }

  lemma {:induction false} BehindStars(ts: Stream, stars: nat)
    requires Head(ts) == Lexing.Identifier && |Repeat(Lexing.Star, stars) + ts| <= 1_000_000
    ensures ParseStatement(Repeat(Lexing.Star, stars) + ts) == ParseCallOrAssignment(ts, stars)
  {
    hide ParseCallOrAssignment;
    if stars == 0 {
      assert Repeat(Lexing.Star, 0) + ts == ts;
    } else {
      RoundTrip.StarLoopRead(stars, ts, 0, 0);
      assert (Repeat(Lexing.Star, stars) + ts)[0] == Mark(Lexing.Star);
    }
  }

  lemma {:induction false} AssignmentReads(stars: nat, target: string, e: ExpressionText, rest: Stream)
    requires RightExpression(e) && |SpellStatement(AssignText(stars, target, e)) + rest| <= 1_000_000 && Head(rest) == Lexing.Newline
    ensures ParseStatement(SpellStatement(AssignText(stars, target, e)) + rest) == Some(([Assignment(target, stars, ExpressionOf(e))], rest))
  {
    hide ParseAssigned, SpellExpression, RightExpression, ParseStatement, Repeat;
    var value := [Mark(Lexing.Equal)] + (SpellExpression(e) + rest);
    AssignmentSpelled(AssignText(stars, target, e), rest);
    RoundTrip.HeadOf(Name(target), value);
    RoundTrip.HeadOf(Mark(Lexing.Equal), SpellExpression(e) + rest);
    BehindStars([Name(target)] + value, stars);
    AssignedReads(e, rest);
  }

  lemma {:induction false} CallLineReads(stars: nat, call: CallText, rest: Stream)
    requires RightCall(call) && |SpellStatement(CallLineText(stars, call)) + rest| <= 1_000_000
    ensures ParseStatement(SpellStatement(CallLineText(stars, call)) + rest) == Some(([CallStatement(CallOf(call))], rest))
  {
    hide ParseCall, RightCall, SpellCall, ParseStatement, Repeat;
    Grouped(Repeat(Lexing.Star, stars), SpellCall(call), rest);
    CallStarts(call, rest);
    BehindStars(SpellCall(call) + rest, stars);
    CallReads(call, rest);
  }

  lemma {:induction false} AssignmentSpelled(s: StatementText, rest: Stream)
    requires s.AssignText?
    ensures SpellStatement(s) + rest
            == Repeat(Lexing.Star, s.stars) + ([Name(s.target)] + ([Mark(Lexing.Equal)] + (SpellExpression(s.value) + rest)))
  {
    hide SpellExpression;
  }

  // ----- newlines -----

  lemma {:induction false} FirstBehind(k: nat, rest: Stream)
    requires Head(rest) != Lexing.Newline
    ensures Lexing.FirstNotNewline(Repeat(Lexing.Newline, k) + rest).typ == Head(rest)
    decreases k
  {
    if k == 0 {
      NoneOf(Lexing.Newline, rest);
    } else {
      OneMore(Lexing.Newline, k - 1, rest);
      RoundTrip.HeadOf(Mark(Lexing.Newline), Repeat(Lexing.Newline, k - 1) + rest);
      FirstBehind(k - 1, rest);
    }
  }

  predicate StartsLine(t: Kind) { t == Lexing.Star || t == Lexing.Identifier || t == Lexing.If || DataTypeOf(t).Some? }

  lemma {:induction false} FirstOf(a: Stream, b: Stream, t: Lexing.Token)
    requires a != [] && a[0] == t
    ensures Head(a + b) == t.typ
  {}

  lemma {:induction false} StatementStarts(s: StatementText, rest: Stream)
    requires RightStatement(s)
    ensures StartsLine(Head(SpellStatement(s) + rest))
  {
    hide SpellExpression, SpellBlock, SpellArguments, RightExpression, RightCall, RightBranch, SpellChain;
    match s
    case DeclareText(v) => FirstOf(SpellStatement(s), rest, Mark(TypeKind(v.typ.dataType)));
    case DefineText(v, _) => FirstOf(SpellStatement(s), rest, Mark(TypeKind(v.typ.dataType)));
    case AssignText(stars, target, _) => FirstOf(SpellStatement(s), rest, if stars == 0 then Name(target) else Mark(Lexing.Star));
    case CallLineText(stars, call) => FirstOf(SpellStatement(s), rest, if stars == 0 then Name(call.name) else Mark(Lexing.Star));
    case ChainText(chain) =>
      ChainStarts(chain, true);
      FirstOf(SpellStatement(s), rest, Mark(Lexing.If));
  }

  lemma {:induction false} ChainStarts(chain: seq<BranchText>, start: bool)
    requires chain != [] && chain[0].newlines == 0 && (start ==> chain[0].condition.Some?)
    ensures SpellChain(chain, start) != []
    ensures SpellChain(chain, start)[0] == Mark(if chain[0].condition.None? then Lexing.Else else if start then Lexing.If else Lexing.Elif)
  {
    hide SpellExpression, SpellBlock;
    assert SpellBranch(chain[0], start) == SpellCondition(chain[0].condition, start) + SpellBlock(chain[0].block);
  }

  lemma {:induction false} LinesStart(lines: seq<LineText>, rest: Stream)
    requires RightLines(lines) && EndsStatements(Head(rest))
    ensures var t := Head(SpellLines(lines) + rest); if lines == [] then SpellLines(lines) + rest == rest else StartsLine(t)
  {
    hide SpellStatement, RightStatement;
    if lines == [] {
      assert SpellLines(lines) + rest == rest;
    } else {
      var l := lines[0];
      var more := [l.dropped] + Repeat(Lexing.Newline, l.newlines) + SpellLines(lines[1..]);
      assert RightLine(l) && SpellLines(lines) == SpellStatement(l.statement) + more;
      Grouped(SpellStatement(l.statement), more, rest);
      StatementStarts(l.statement, more + rest);
    }
  }

  // ----- blocks -----

  // No branch is seen behind the current token.
  predicate NoBranch(rest: Stream) { Ahead(rest) != Lexing.Elif && Ahead(rest) != Lexing.Else }

  lemma {:induction false} StatementReads(s: StatementText, rest: Stream)
    requires RightStatement(s) && |SpellStatement(s) + rest| <= 1_000_000
    requires s.DeclareText? || s.DefineText? || s.AssignText? ==> Head(rest) == Lexing.Newline
    requires s.ChainText? ==> NoBranch(rest)
    ensures ParseStatement(SpellStatement(s) + rest) == Some((StatementsOf(s), rest))
    decreases s, 1
  {
    match s
    case ChainText(chain) => ChainStatementReads(chain, rest);
    case AssignText(stars, target, e) => AssignmentReads(stars, target, e, rest);
    case CallLineText(stars, call) => CallLineReads(stars, call, rest);
    case DeclareText(_) => DeclarationReads(s, rest);
    case DefineText(_, _) => DeclarationReads(s, rest);
  }

  lemma {:induction false} ChainStatementReads(chain: seq<BranchText>, rest: Stream)
    requires chain != [] && chain[0].newlines == 0 && RightChain(chain, true) && |SpellChain(chain, true) + rest| <= 1_000_000 && NoBranch(rest)
    ensures ParseStatement(SpellChain(chain, true) + rest) == Some(([Conditional(ChainOf(chain))], rest))
    decreases chain, 1
  {
    hide SpellChain, ParseGroup, ChainOf, RightBranch;
    ChainStarts(chain, true);
    FirstOf(SpellChain(chain, true), rest, Mark(Lexing.If));
    GroupReads(chain, rest, true);
  }

  lemma {:induction false} GroupReads(chain: seq<BranchText>, rest: Stream, start: bool)
    requires chain != [] && RightChain(chain, start) && |SpellChain(chain, start) + rest| <= 1_000_000 && NoBranch(rest)
    ensures ParseGroup(SpellChain(chain, start) + rest, start) == Some((ChainOf(chain), rest))
    decreases chain, 0
  {
    hide SpellBranch, ParseBranch, BranchOf, RightBranch, SkipNewlines, Ahead;
    var b, others := chain[0], SpellChain(chain[1..], false);
    Grouped(SpellBranch(b, start), others, rest);
    if |chain| == 1 {
      assert chain[1..] == [] && others == [] && [] + rest == rest && ChainOf([]) == [];
      BranchReads(b, rest, start);
      assert ChainOf(chain) == [BranchOf(b)] + [] == [BranchOf(b)];
    } else {
      BranchReads(b, others + rest, start);
      LaterStarts(chain[1..], rest);
      GroupReads(chain[1..], rest, false);
    }
  }

  lemma {:induction false} LaterStarts(chain: seq<BranchText>, rest: Stream)
    requires chain != [] && RightChain(chain, false)
    ensures !NoBranch(SpellChain(chain, false) + rest)
  {
    hide SpellBlock, SpellExpression, RightBranch;
    var b := chain[0];
    var mark := SpellCondition(b.condition, false);
    var more := mark + (SpellBlock(b.block) + SpellChain(chain[1..], false) + rest);
    FirstOf(mark, SpellBlock(b.block) + SpellChain(chain[1..], false) + rest, mark[0]);
    LaterSpelled(b, SpellChain(chain[1..], false), rest);
    OneMore(Lexing.Newline, b.newlines - 1, more);
    RoundTrip.HeadOf(Mark(Lexing.Newline), Repeat(Lexing.Newline, b.newlines - 1) + more);
    FirstBehind(b.newlines - 1, more);
  }

  lemma {:induction false} LaterSpelled(b: BranchText, others: Stream, rest: Stream)
    ensures SpellBranch(b, false) + others + rest
            == Repeat(Lexing.Newline, b.newlines) + (SpellCondition(b.condition, false) + (SpellBlock(b.block) + others + rest))
  {
    hide SpellBlock, SpellCondition, Repeat;
  }

  // Behind the newlines.
  lemma {:induction false} BranchReads(b: BranchText, rest: Stream, start: bool)
    requires RightBranch(b) && (start ==> b.condition.Some?) && |SpellBranch(b, start) + rest| <= 1_000_000
    ensures ParseBranch(SkipNewlines(SpellBranch(b, start) + rest), start) == Some((BranchOf(b), rest))
    decreases b, 1
  {
    hide SpellBlock, ParseBlock, BlockOf, RightBlock, SpellExpression, ParseExpression, RightExpression, Repeat, SkipNewlines;
    var block := SpellBlock(b.block) + rest;
    BranchSpelled(b, start, rest);
    BlockReads(b.block, rest);
    if b.condition.None? {
      RoundTrip.HeadOf(Mark(Lexing.Else), block);
      NewlineRuns.NewlinesSkipped(b.newlines, [Mark(Lexing.Else)] + block);
    } else {
      var close := [Mark(Lexing.RightParenthesis)] + block;
      var inner := SpellExpression(b.condition.value) + close;
      var mark := Mark(if start then Lexing.If else Lexing.Elif);
      RoundTrip.HeadOf(mark, [Mark(Lexing.LeftParenthesis)] + inner);
      RoundTrip.HeadOf(Mark(Lexing.LeftParenthesis), inner);
      RoundTrip.HeadOf(Mark(Lexing.RightParenthesis), block);
      NewlineRuns.NewlinesSkipped(b.newlines, [mark] + ([Mark(Lexing.LeftParenthesis)] + inner));
      ExpressionReads(b.condition.value, close);
    }
  }

  lemma {:induction false} BranchSpelled(b: BranchText, start: bool, rest: Stream)
    ensures var block := SpellBlock(b.block) + rest;
            SpellBranch(b, start) + rest == Repeat(Lexing.Newline, b.newlines) +
            if b.condition.None? then [Mark(Lexing.Else)] + block
            else [Mark(if start then Lexing.If else Lexing.Elif)] + ([Mark(Lexing.LeftParenthesis)]
                 + (SpellExpression(b.condition.value) + ([Mark(Lexing.RightParenthesis)] + block)))
  {
    hide SpellBlock, SpellExpression, Repeat;
  }

  lemma {:induction false} LinesReads(lines: seq<LineText>, rest: Stream, n: nat)
    requires lines != [] && RightLines(lines) && n + |SpellLines(lines) + rest| <= 1_000_000 && EndsStatements(Head(rest))
    ensures StatementLoop(SpellLines(lines) + rest, n) == Some((LinesOf(lines), rest))
    decreases lines, 0
  {
    hide SpellLine, ParseStatement, LineOf, RightLine, SkipNewlines;
    var l, more := lines[0], SpellLines(lines[1..]) + rest;
    Grouped(SpellLine(l), SpellLines(lines[1..]), rest);
    LinesStart(lines[1..], rest);
    LineReads(l, more);
    if |lines| == 1 {
      assert lines[1..] == [] && LinesOf([]) == [] && LineOf(l) + [] == LineOf(l);
    } else {
      LinesReads(lines[1..], rest, n + 1);
    }
  }

  lemma {:induction false} LineReads(l: LineText, rest: Stream)
    requires RightLine(l) && |SpellLine(l) + rest| <= 1_000_000 && (StartsLine(Head(rest)) || EndsStatements(Head(rest)))
    ensures ParseStatement(SpellLine(l) + rest).Some? && |SpellLine(l)| > 0
    ensures var (ss, ts1) := ParseStatement(SpellLine(l) + rest).value; ss == LineOf(l) && SkipNewlines(Tail(ts1)) == rest
    decreases l, 1
  {
    hide SpellStatement, ParseStatement, RightStatement, SkipNewlines, Repeat, StatementsOf;
    var lines := Repeat(Lexing.Newline, l.newlines);
    var more := [l.dropped] + (lines + rest);
    LineSpelled(l, rest);
    RoundTrip.HeadOf(l.dropped, lines + rest);
    FirstBehind(l.newlines, rest);
    NewlineRuns.NewlinesSkipped(l.newlines, rest);
    StatementReads(l.statement, more);
  }

  lemma {:induction false} LineSpelled(l: LineText, rest: Stream)
    ensures SpellLine(l) + rest == SpellStatement(l.statement) + ([l.dropped] + (Repeat(Lexing.Newline, l.newlines) + rest))
  {
    hide SpellStatement, Repeat;
  }

  lemma {:induction false} ValueReads(e: Option<ExpressionText>, behind: nat, close: Stream)
    requires RightOptional(e) && Head(close) == Lexing.RightCurlyBrace && |SpellValue(e) + (Repeat(Lexing.Newline, behind) + close)| <= 1_000_000
    requires e.None? ==> behind == 0
    ensures var ts := SpellValue(e) + (Repeat(Lexing.Newline, behind) + close);
            && EndsStatements(Head(ts)) && ParseReturn(ts).Some?
            && ParseReturn(ts).value.0 == OptionalOf(e) && SkipNewlines(ParseReturn(ts).value.1) == close
  {
    hide ParseExpression, SpellExpression, RightExpression, SkipNewlines;
    var more := Repeat(Lexing.Newline, behind) + close;
    NewlineRuns.NewlinesSkipped(behind, close);
    if e.Some? {
      Grouped([Mark(Lexing.Return)], SpellExpression(e.value), more);
      RoundTrip.HeadOf(Mark(Lexing.Return), SpellExpression(e.value) + more);
      assert Head(more) == if behind > 0 then Lexing.Newline else Lexing.RightCurlyBrace;
      ExpressionReads(e.value, more);
    } else {
      assert [] + more == more && more == close;
    }
  }

  // Every text of a block that follows the rules is read as its tree, whatever
  // comes behind it.
  lemma {:induction false} BlockReads(b: BlockText, rest: Stream)
    requires RightBlock(b) && |SpellBlock(b) + rest| <= 1_000_000
    ensures ParseBlock(SpellBlock(b) + rest) == Some((BlockOf(b), rest))
    decreases b, 1
  {
    hide SpellLines, SpellValue, StatementLoop, ParseStatements, ParseReturn, RightOptional, LinesOf, OptionalOf, RightLines, Repeat, SkipNewlines, SpellBlock;
    var close := [Mark(Lexing.RightCurlyBrace)] + rest;
    var ret := SpellValue(b.value) + (Repeat(Lexing.Newline, b.behind) + close);
    var ss := SpellLines(b.lines) + ret;
    var inner := Repeat(Lexing.Newline, b.inside) + ss;
    BlockSpelled(b, rest);
    RoundTrip.HeadOf(Mark(Lexing.LeftCurlyBrace), inner);
    RoundTrip.HeadOf(Mark(Lexing.RightCurlyBrace), rest);
    ValueReads(b.value, b.behind, close);
    LinesStart(b.lines, ret);
    NewlineRuns.NewlinesSkipped(b.front, [Mark(Lexing.LeftCurlyBrace)] + inner);
    NewlineRuns.NewlinesSkipped(b.inside, ss);
    NewlineRuns.SkipsNothing(ss);
    StatementsReads(b.lines, ret);
  }

  lemma {:induction false} StatementsReads(lines: seq<LineText>, rest: Stream)
    requires RightLines(lines) && |SpellLines(lines) + rest| <= 1_000_000 && EndsStatements(Head(rest))
    ensures ParseStatements(SpellLines(lines) + rest) == Some((LinesOf(lines), rest))
    decreases lines, 1
  {
    hide StatementLoop;
    LinesStart(lines, rest);
    if lines != [] {
      LinesReads(lines, rest, 0);
      NewlineRuns.SkipsNothing(SpellLines(lines) + rest);
    }
  }

  // ----- exactly -----

  ghost predicate IsTextOf(b: BlockText, ts: Stream, x: Block, rest: Stream) {
    RightBlock(b) && BlockOf(b) == x && ts == SpellBlock(b) + rest
  }

  // The parser reads the block x from the front of a stream if and only if a
  // text of x that follows the rules stands there.
  lemma {:induction false} BlockExact(ts: Stream, x: Block, rest: Stream)
    requires Tidy(ts) && |ts| <= 1_000_000
    ensures ParseBlock(ts) == Some((x, rest)) <==> exists b :: IsTextOf(b, ts, x, rest)
  {
    hide RightBlock, BlockOf, SpellBlock, Tidy;
    if ParseBlock(ts) == Some((x, rest)) {
      var b := BlockRead(ts);
      assert IsTextOf(b, ts, x, rest);
    }
    if b :| IsTextOf(b, ts, x, rest) {
      BlockReads(b, rest);
    }
  }
}
