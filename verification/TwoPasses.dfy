/**
  The two passes of the parser: the first skips function bodies by counting
  braces, the second goes back and reads them. On printed units both stop at
  the same brace, and together they give the unit back, from its tokens and
  from its text.
 */
module TwoPasses {
  import opened Wrappers
  import opened Ast
  import Lexing
  import Text
  import Items
  import Analysis
  import opened Grammar
  import opened Printer
  import opened RoundTrip
  import opened Skipping

  // ----- printed bodies -----

  // What the second pass drops of a printed body are newlines.
  lemma {:induction false} InnerPrinted(b: Block, rest: Stream)
    requires PrintableBlock(b)
    ensures var close := [Mark(Lexing.RightCurlyBrace)] + rest; var ts := PrintBlock(b) + rest;
            && ParseBlock(ts) == Some((b, rest)) && EndOf(ts) == close
            && InnerOf(ts) == PrintStatements(b.statements) + (PrintReturn(b.returnValue) + close)
            && BodyLength(ts) == |PrintBlock(b)| - 2
  {
    hide PrintStatements, PrintReturn, ParseReturn, StatementLoop, Tail;
    var close := [Mark(Lexing.RightCurlyBrace)] + rest;
    var ret := PrintReturn(b.returnValue) + close;
    var ss := PrintStatements(b.statements) + ret;
    BlockLayout(b, rest);
    HeadOf(Mark(Lexing.LeftCurlyBrace), [Lexing.NEWLINE] + ss);
    ReturnRead(b.returnValue, close);
    StatementsStart(b.statements, ret);
    NewlineSkipped(ss);
    BlockRead(b, rest);
    if b.statements != [] {
      StatementsRead(b.statements, ret, 0);
    }
  }

  lemma {:induction false} BlockClean(b: Block, rest: Stream)
    requires PrintableBlock(b)
    ensures ParseBlock(PrintBlock(b) + rest).Some? && Clean(StepsOfBody(PrintBlock(b) + rest))
    decreases b, 1
  {
    hide ParseReturn, PrintableStatements, StepsOfLoop, StatementLoop, PrintStatements, PrintReturn, Tail;
    var ret := PrintReturn(b.returnValue) + ([Mark(Lexing.RightCurlyBrace)] + rest);
    InnerPrinted(b, rest);
    ReturnRead(b.returnValue, [Mark(Lexing.RightCurlyBrace)] + rest);
    StatementsStart(b.statements, ret);
    if b.statements != [] {
      StatementsClean(b.statements, ret, 0);
    }
  }

  lemma {:induction false} StatementsClean(ss: seq<Statement>, rest: Stream, n: nat)
    requires ss != [] && PrintableStatements(ss) && EndsStatements(Head(rest)) && n + |ss| <= LOOP_LIMIT
    ensures StatementLoop(PrintStatements(ss) + rest, n).Some? && Clean(StepsOfLoop(PrintStatements(ss) + rest, n))
    decreases ss, 0
  {
    hide ParseStatement, StatementLoop, PrintStatement, StepsOfLoop, StepsOfStatement, AfterStatement, PrintableStatement, Clean, StepsBehind;
    var ts, others := PrintStatements(ss) + rest, PrintStatements(ss[1..]) + rest;
    StatementsRead(ss, rest, n);
    LoopParts(ts, n);
    FirstStatement(ss, rest);
    StatementClean(ss[0], [Lexing.NEWLINE] + others);
    if |ss| > 1 {
      StatementsClean(ss[1..], rest, n + 1);
    }
    BehindClean(others, n);
    DropClean(StepsOfStatement(ts), Lexing.Newline, StepsBehind(others, n));
  }

  lemma {:induction false} BehindClean(ts: Stream, n: nat)
    requires TurnsEnd(ts, n) || (StatementLoop(ts, n + 1).Some? && Clean(StepsOfLoop(ts, n + 1)))
    ensures Clean(StepsBehind(ts, n))
  {}

  // The first statement of a list, the newline behind it and the others.
  lemma {:induction false} FirstStatement(ss: seq<Statement>, rest: Stream)
    requires ss != [] && PrintableStatements(ss) && EndsStatements(Head(rest))
    ensures var ts, others := PrintStatements(ss) + rest, PrintStatements(ss[1..]) + rest; var more := [Lexing.NEWLINE] + others;
            && ts == PrintStatement(ss[0]) + more && Head(more) == Lexing.Newline && Tail(more) == others
            && ParseStatement(ts) == Some(([ss[0]], more)) && SkipNewlines(others) == others && AfterStatement(more)
            && if |ss| == 1 then others == rest else !EndsStatements(Head(others))
  {
    hide ParseStatement, AfterStatement, PrintStatements, PrintStatement, PrintableStatement;
    var others := PrintStatements(ss[1..]) + rest;
    StatementsLayout(ss, rest);
    HeadOf(Lexing.NEWLINE, others);
    OthersStart(ss[1..], rest);
    StatementRead(ss[0], [Lexing.NEWLINE] + others);
  }

  lemma {:induction false} OthersStart(ss: seq<Statement>, rest: Stream)
    requires PrintableStatements(ss) && EndsStatements(Head(rest))
    ensures SkipNewlines(PrintStatements(ss) + rest) == PrintStatements(ss) + rest && (ss == [] ==> PrintStatements(ss) + rest == rest)
    ensures ss != [] ==> !EndsStatements(Head(PrintStatements(ss) + rest))
    ensures AfterStatement([Lexing.NEWLINE] + (PrintStatements(ss) + rest))
  {
    StatementsStart(ss, rest);
    HeadOf(Lexing.NEWLINE, PrintStatements(ss) + rest);
  }

  lemma {:induction false} DropClean(a: seq<Step>, t: Lexing.TokenType, b: seq<Step>)
    requires Clean(a) && Clean(b) && !IsBrace(t)
    ensures Clean(a + ([Dropped(t)] + b))
  {
    CleanAppend([Dropped(t)], b);
    CleanAppend(a, [Dropped(t)] + b);
  }

  lemma {:induction false} StatementClean(s: Statement, rest: Stream)
    requires PrintableStatement(s) && AfterStatement(rest)
    ensures ParseStatement(PrintStatement(s) + rest).Some? && Clean(StepsOfStatement(PrintStatement(s) + rest))
    decreases s, 1
  {
    StatementRead(s, rest);
    if s.Conditional? {
      ChainClean(s.chain, rest, true);
      ChainStarts(s.chain, rest, true);
    } else {
      SimpleStarts(s, rest);
    }
  }

  lemma {:induction false} SimpleStarts(s: Statement, rest: Stream)
    requires PrintableStatement(s) && !s.Conditional?
    ensures Head(PrintStatement(s) + rest) != Lexing.If
  {
    match s
    case Declaration(v) => VariableRead(v, rest);
    case Assignment(target, steps, e) => assert (PrintStatement(s) + rest)[0] == if steps == 0 then Name(target) else Mark(Lexing.Star);
    case CallStatement(call) => CallStarts(call, rest);
  }

  lemma {:induction false} ChainClean(chain: seq<Branch>, rest: Stream, start: bool)
    requires chain != [] && PrintableChain(chain, start) && AfterStatement(rest)
    ensures ParseGroup(PrintChain(chain, start) + rest, start).Some? && Clean(StepsOfGroup(PrintChain(chain, start) + rest, start))
    decreases chain, 0
  {
    var ts := PrintChain(chain, start) + rest;
    var more := if |chain| == 1 then rest else [Lexing.NEWLINE] + (PrintChain(chain[1..], false) + rest);
    ChainRead(chain, rest, start);
    FirstBranch(chain, rest, start);
    BranchClean(chain[0], more, start);
    if |chain| > 1 {
      ChainClean(chain[1..], rest, false);
      OthersClean(chain[1..], rest);
    }
    CleanAppend(StepsOfBranch(ts, start), if |chain| == 1 then [] else StepsOfGroup(more, false));
  }

  lemma {:induction false} FirstBranch(chain: seq<Branch>, rest: Stream, start: bool)
    requires chain != [] && PrintableChain(chain, start) && AfterStatement(rest)
    ensures var ts, others := PrintChain(chain, start) + rest, PrintChain(chain[1..], false) + rest;
            var more := if |chain| == 1 then rest else [Lexing.NEWLINE] + others;
            && ts == PrintBranch(chain[0], start) + more && SkipNewlines(ts) == ts
            && ParseBranch(ts, start) == Some((chain[0], more))
            && (|chain| > 1 <==> Ahead(more) == Lexing.Elif || Ahead(more) == Lexing.Else)
  {
    hide PrintChain, PrintBranch, PrintBlock, ParseBlock, SkipLoop, PrintableBranch;
    var others := PrintChain(chain[1..], false) + rest;
    var more := if |chain| == 1 then rest else [Lexing.NEWLINE] + others;
    ChainSplits(chain, rest, start);
    ChainStarts(chain, rest, start);
    BranchRead(chain[0], more, start);
    if |chain| == 1 {
      AheadOf(rest);
    } else {
      ChainStarts(chain[1..], rest, false);
      HeadOf(Lexing.NEWLINE, others);
      AheadOf(more);
    }
  }

  // A newline in front of the other branches changes nothing.
  lemma {:induction false} OthersClean(chain: seq<Branch>, rest: Stream)
    requires chain != [] && PrintableChain(chain, false) && AfterStatement(rest)
    requires ParseGroup(PrintChain(chain, false) + rest, false).Some? && Clean(StepsOfGroup(PrintChain(chain, false) + rest, false))
    ensures var more := [Lexing.NEWLINE] + (PrintChain(chain, false) + rest);
            ParseGroup(more, false).Some? && Clean(StepsOfGroup(more, false))
  {
    hide PrintChain, ParseBranch, StepsOfBranch, Ahead, SkipLoop;
    var ts := PrintChain(chain, false) + rest;
    ChainStarts(chain, rest, false);
    NewlineSkipped(ts);
    assert SkipNewlines(ts) == ts;
  }

  lemma {:induction false} BranchClean(b: Branch, rest: Stream, start: bool)
    requires PrintableBranch(b, start)
    ensures ParseBranch(PrintBranch(b, start) + rest, start).Some? && Clean(StepsOfBranch(PrintBranch(b, start) + rest, start))
    decreases b, 2
  {
    var ts, block := PrintBranch(b, start) + rest, PrintBlock(b.block) + rest;
    BranchRead(b, rest, start);
    BlockClean(b.block, rest);
    BlockPlace(b, rest, start);
    CleanAppend(StepsOfBody(block), [Closed]);
    CleanAppend([Opened], StepsOfBody(block) + [Closed]);
  }

  lemma {:induction false} BlockPlace(b: Branch, rest: Stream, start: bool)
    requires PrintableBranch(b, start)
    ensures ParseBranch(PrintBranch(b, start) + rest, start).Some?
    ensures BlockOf(PrintBranch(b, start) + rest, start) == PrintBlock(b.block) + rest
  {
    hide ParseBlock, Grammar.ParseExpression, PrintBlock, PrintExpression, ParseGroup, PrintableExpression,
      PrintableBlock;
    var block := PrintBlock(b.block) + rest;
    BranchRead(b, rest, start);
    if b.condition.None? {
      ElseLayout(b, rest);
      HeadOf(Mark(Lexing.Else), block);
    } else {
      var t, e := Mark(if start then Lexing.If else Lexing.Elif), b.condition.value;
      var close := [Mark(Lexing.RightParenthesis)] + block;
      IfLayout(b, e, rest, start);
      HeadOf(t, [Mark(Lexing.LeftParenthesis)] + (PrintExpression(e) + close));
      HeadOf(Mark(Lexing.LeftParenthesis), PrintExpression(e) + close);
      HeadOf(Mark(Lexing.RightParenthesis), block);
      ExpressionRead(e, close);
    }
  }

  // The first pass skips exactly what the second one reads.
  lemma {:induction false} PassesAgree(b: Block, rest: Stream)
    requires PrintableBlock(b) && |PrintBlock(b)| <= LOOP_LIMIT
    ensures SkipBody(PrintBlock(b) + rest) == Some([Mark(Lexing.RightCurlyBrace)] + rest)
    ensures ParseBlock(PrintBlock(b) + rest) == Some((b, Tail(SkipBody(PrintBlock(b) + rest).value)))
  {
    InnerPrinted(b, rest);
    BlockClean(b, rest);
    CleanAgrees(PrintBlock(b) + rest);
  }

  const DROPPED_BRACE: Stream := [
    Mark(Lexing.LeftCurlyBrace), Name("f"), Mark(Lexing.LeftParenthesis), Mark(Lexing.RightParenthesis),
    Mark(Lexing.LeftCurlyBrace), Mark(Lexing.Return), Lexing.Token(Lexing.IntegerLiteral, "1"), Mark(Lexing.RightCurlyBrace),
    Mark(Lexing.RightCurlyBrace)]

  // `{ if (a) { x = 1 newline } }`
  function DroppedEndText(): Stream {
    [Mark(Lexing.LeftCurlyBrace)] + ([Mark(Lexing.If)] + ([Mark(Lexing.LeftParenthesis)] + ([Name("a")] + ([Mark(Lexing.RightParenthesis)]
    + BranchText()))))
  }

  function BranchText(): Stream {
    [Mark(Lexing.LeftCurlyBrace)] + ([Name("x")] + ([Mark(Lexing.Equal)] + ([Lexing.Token(Lexing.IntegerLiteral, "1")] + ([Lexing.NEWLINE]
    + ([Mark(Lexing.RightCurlyBrace)] + [Mark(Lexing.RightCurlyBrace)])))))
  }

  // Outside the canonical text they can part. The token dropped behind a call
  // may be a brace, which only the first pass counts: `{ f() { return 1 } }`.
  lemma {:induction false} DroppedBrace()
    ensures var ts := DROPPED_BRACE;
            && SkipBody(ts) == Some([Mark(Lexing.RightCurlyBrace)])
            && ParseBlock(ts).Some? && ParseBlock(ts).value.1 == [Mark(Lexing.RightCurlyBrace)]
  {
    hide SkipBody, ParseBlock;
    var ts := DROPPED_BRACE;
    ReadAt(ts, 0); ReadAt(ts, 1); ReadAt(ts, 2); ReadAt(ts, 3); ReadAt(ts, 4); ReadAt(ts, 5); ReadAt(ts, 6); ReadAt(ts, 7); ReadAt(ts, 8);
    assert ts[0..] == ts && ts[8..] == [Mark(Lexing.RightCurlyBrace)];
    DroppedBraceSkipped(ts[1..], ts[2..], ts[3..], ts[4..], ts[5..], ts[6..], ts[7..], ts[8..]);
    SkipStarts(ts);
    DroppedBraceRead(ts, ts[1..], ts[2..], ts[3..], ts[4..], ts[5..], ts[6..], ts[7..]);
  }

  lemma {:induction false} DroppedBraceSkipped(t1: Stream, t2: Stream, t3: Stream, t4: Stream, t5: Stream, t6: Stream, t7: Stream, t8: Stream)
    requires Tail(t1) == t2 && Tail(t2) == t3 && Tail(t3) == t4 && Tail(t4) == t5 && Tail(t5) == t6 && Tail(t6) == t7 && Tail(t7) == t8
    requires Head(t1) == Lexing.Identifier && Head(t2) == Lexing.LeftParenthesis && Head(t3) == Lexing.RightParenthesis
    requires Head(t4) == Lexing.LeftCurlyBrace && Head(t5) == Lexing.Return && Head(t6) == Lexing.IntegerLiteral
    requires Head(t7) == Lexing.RightCurlyBrace && Head(t8) == Lexing.RightCurlyBrace
    ensures SkipBraces(t1, 1, 0) == Some(t8)
  {
    assert SkipBraces(t7, 2, 6) == SkipBraces(t8, 1, 7) == Some(t8);
    assert SkipBraces(t4, 1, 3) == SkipBraces(t5, 2, 4) == SkipBraces(t6, 2, 5) == SkipBraces(t7, 2, 6);
    assert SkipBraces(t1, 1, 0) == SkipBraces(t2, 1, 1) == SkipBraces(t3, 1, 2) == SkipBraces(t4, 1, 3);
  }

  lemma {:induction false} CallRest(t1: Stream, t2: Stream, t3: Stream, t4: Stream, t5: Stream)
    requires Tail(t1) == t2 && Tail(t2) == t3 && Tail(t3) == t4 && Tail(t4) == t5
    requires Head(t1) == Lexing.Identifier && Head(t2) == Lexing.LeftParenthesis && Head(t3) == Lexing.RightParenthesis
    requires Head(t5) == Lexing.Return
    ensures ParseStatements(t1).Some? && ParseStatements(t1).value.1 == t5
  {
    hide Value;
    var call := Call(Value(t1), []);
    assert ParseCall(Value(t1), t2) == Some((call, t4));
    assert ParseStatement(t1) == Some(([CallStatement(call)], t4));
    assert StatementLoop(t1, 0) == Some(([CallStatement(call)], t5));
  }

  lemma {:induction false} LiteralReturned(t5: Stream, t6: Stream, t7: Stream)
    requires Tail(t5) == t6 && Tail(t6) == t7
    requires Head(t5) == Lexing.Return && Head(t6) == Lexing.IntegerLiteral && Head(t7) == Lexing.RightCurlyBrace
    ensures ParseReturn(t5).Some? && ParseReturn(t5).value.1 == t7
  {
    hide Value;
    assert PrefixLoop(t6, 0, false, 0) == Some((0, t6));
    assert ParseOperand(t6) == Some((Operand.IntegerLiteral(Value(t6)), t7));
    assert ParseUnits(t6, true, 0).Some? && ParseUnits(t6, true, 0).value.1 == t7;
  }

  lemma {:induction false} DroppedBraceRead(ts: Stream, t1: Stream, t2: Stream, t3: Stream, t4: Stream, t5: Stream, t6: Stream, t7: Stream)
    requires Tail(t1) == t2 && Tail(t2) == t3 && Tail(t3) == t4 && Tail(t4) == t5 && Tail(t5) == t6 && Tail(t6) == t7
    requires Head(t1) == Lexing.Identifier && Head(t2) == Lexing.LeftParenthesis && Head(t3) == Lexing.RightParenthesis
    requires Head(t5) == Lexing.Return && Head(t6) == Lexing.IntegerLiteral && Head(t7) == Lexing.RightCurlyBrace
    requires t7 != [] && Head(ts) == Lexing.LeftCurlyBrace && Tail(ts) == t1
    ensures ParseBlock(ts).Some? && ParseBlock(ts).value.1 == Tail(t7)
  {
    hide ParseStatements, ParseReturn, Head, Tail;
    CallRest(t1, t2, t3, t4, t5);
    LiteralReturned(t5, t6, t7);
  }

  // The token behind the last brace of a chain is dropped, too: the second pass
  // loses the end of `{ if (a) { x = 1 newline } }`, which the first one finds.
  lemma {:induction false} DroppedEnd()
    ensures SkipBody(DroppedEndText()) == Some([Mark(Lexing.RightCurlyBrace)]) && ParseBlock(DroppedEndText()) == None
  {
    hide Closing, SkipBody, ParseBlock, Head, Tail, Value, BranchText;
    var t5, end := BranchText(), [Mark(Lexing.RightCurlyBrace)];
    var t4 := [Mark(Lexing.RightParenthesis)] + t5;
    var t3 := [Name("a")] + t4;
    var t2 := [Mark(Lexing.LeftParenthesis)] + t3;
    var t1 := [Mark(Lexing.If)] + t2;
    HeadOf(Mark(Lexing.LeftCurlyBrace), t1);
    HeadOf(Mark(Lexing.If), t2);
    HeadOf(Mark(Lexing.LeftParenthesis), t3);
    HeadOf(Name("a"), t4);
    HeadOf(Mark(Lexing.RightParenthesis), t5);
    BranchTextRead();
    Over(t1, 1);
    Over(t2, 1);
    Over(t3, 1);
    Over(t4, 1);
    SkipIsClosing(t1, 1, 0);
    SkipStarts(DroppedEndText());
    DroppedEndRead(DroppedEndText(), t1, t2, t3, t4, t5, end);
  }

  // The branch is read to its own brace and skipped to the brace of the body.
  lemma {:induction false} BranchTextRead()
    ensures ParseBlock(BranchText()).Some? && ParseBlock(BranchText()).value.1 == [Mark(Lexing.RightCurlyBrace)]
    ensures Closing(BranchText(), 1) == Some([Mark(Lexing.RightCurlyBrace)]) && |BranchText()| == 7
    ensures Head([Mark(Lexing.RightCurlyBrace)]) == Lexing.RightCurlyBrace && Tail([Mark(Lexing.RightCurlyBrace)]) == []
  {
    hide ParseBlock, Value;
    var end: Stream := [Mark(Lexing.RightCurlyBrace)];
    var t10 := [Mark(Lexing.RightCurlyBrace)] + end;
    var t9 := [Lexing.NEWLINE] + t10;
    var t8 := [Lexing.Token(Lexing.IntegerLiteral, "1")] + t9;
    var t7 := [Mark(Lexing.Equal)] + t8;
    var t6 := [Name("x")] + t7;
    HeadOf(Mark(Lexing.LeftCurlyBrace), t6);
    HeadOf(Name("x"), t7);
    HeadOf(Mark(Lexing.Equal), t8);
    HeadOf(Lexing.Token(Lexing.IntegerLiteral, "1"), t9);
    HeadOf(Lexing.NEWLINE, t10);
    HeadOf(Mark(Lexing.RightCurlyBrace), end);
    assert end == [Mark(Lexing.RightCurlyBrace)] + [] && Head(end) == Lexing.RightCurlyBrace;
    DroppedEndBranch(BranchText(), t6, t7, t8, t9, t10, end);
    DroppedEndSkipped(BranchText(), t6, t7, t8, t9, t10, end);
  }

  lemma {:induction false} ReadAt(ts: Stream, k: nat)
    requires k < |ts|
    ensures Head(ts[k..]) == ts[k].typ && Value(ts[k..]) == ts[k].value && Tail(ts[k..]) == ts[k + 1..]
  {}

  lemma {:induction false} SkipStarts(ts: Stream)
    requires Head(ts) == Lexing.LeftCurlyBrace
    ensures SkipBody(ts) == SkipBraces(Tail(ts), 1, 0)
  {}

  lemma {:induction false} DroppedEndSkipped(t5: Stream, t6: Stream, t7: Stream, t8: Stream, t9: Stream, t10: Stream, t11: Stream)
    requires Tail(t5) == t6 && Tail(t6) == t7 && Tail(t7) == t8 && Tail(t8) == t9 && Tail(t9) == t10 && Tail(t10) == t11
    requires !IsBrace(Head(t6)) && !IsBrace(Head(t7)) && !IsBrace(Head(t8)) && !IsBrace(Head(t9))
    requires Head(t5) == Lexing.LeftCurlyBrace && Head(t10) == Lexing.RightCurlyBrace && Head(t11) == Lexing.RightCurlyBrace
    ensures Closing(t5, 1) == Some(t11)
  {
    assert Closing(t10, 2) == Closing(t11, 1) == Some(t11);
    assert Closing(t6, 2) == Closing(t7, 2) == Closing(t8, 2) == Closing(t9, 2) == Closing(t10, 2);
    assert Closing(t5, 1) == Closing(t6, 2);
  }

  // The block of the branch, read to its own brace.
  lemma {:induction false} LiteralAssigned(t7: Stream, t8: Stream, t9: Stream)
    requires Tail(t7) == t8 && Tail(t8) == t9
    requires Head(t7) == Lexing.Equal && Head(t8) == Lexing.IntegerLiteral && Head(t9) == Lexing.Newline
    ensures ParseAssigned(t7).Some? && ParseAssigned(t7).value.1 == t9
  {
    hide Value;
    assert PrefixLoop(t8, 0, false, 0) == Some((0, t8));
    assert ParseOperand(t8) == Some((Operand.IntegerLiteral(Value(t8)), t9));
    assert ParseUnits(t8, true, 0).Some? && ParseUnits(t8, true, 0).value.1 == t9;
  }

  lemma {:induction false} DroppedEndBranch(t5: Stream, t6: Stream, t7: Stream, t8: Stream, t9: Stream, t10: Stream, t11: Stream)
    requires Tail(t5) == t6 && Tail(t6) == t7 && Tail(t7) == t8 && Tail(t8) == t9 && Tail(t9) == t10 && Tail(t10) == t11
    requires Head(t5) == Lexing.LeftCurlyBrace && Head(t6) == Lexing.Identifier && Head(t7) == Lexing.Equal && Head(t8) == Lexing.IntegerLiteral
    requires Head(t9) == Lexing.Newline && Head(t10) == Lexing.RightCurlyBrace
    ensures ParseBlock(t5).Some? && ParseBlock(t5).value.1 == t11
  {
    hide ParseAssigned, ParseGroup, ParseDeclaration, Value;
    LiteralAssigned(t7, t8, t9);
    assert ParseStatement(t6).Some? && ParseStatement(t6).value.1 == t9;
    assert StatementLoop(t6, 0).Some? && StatementLoop(t6, 0).value.1 == t10;
    assert ParseStatements(t6).Some? && ParseStatements(t6).value.1 == t10;
  }

  lemma {:induction false} DroppedEndGroup(t1: Stream, t2: Stream, t3: Stream, t4: Stream, t5: Stream, t11: Stream)
    requires Tail(t1) == t2 && Tail(t2) == t3 && Tail(t3) == t4 && Tail(t4) == t5 && Tail(t11) == []
    requires Head(t1) == Lexing.If && Head(t2) == Lexing.LeftParenthesis && Head(t3) == Lexing.Identifier && Head(t4) == Lexing.RightParenthesis
    requires ParseBlock(t5).Some? && ParseBlock(t5).value.1 == t11 && Head(t11) == Lexing.RightCurlyBrace
    ensures ParseStatement(t1).Some? && ParseStatement(t1).value.1 == t11
  {
    hide ParseBlock, StatementLoop;
    assert PrefixLoop(t3, 0, false, 0) == Some((0, t3));
    assert ParseOperand(t3).Some? && ParseOperand(t3).value.1 == t4;
    assert ParseUnits(t3, true, 0).Some? && ParseUnits(t3, true, 0).value.1 == t4;
    assert ParseBranch(t1, true).Some? && ParseBranch(t1, true).value.1 == t11;
    assert Ahead(t11) == Lexing.EndOfFile;
    assert ParseGroup(t1, true).Some? && ParseGroup(t1, true).value.1 == t11;
  }

  // Nothing is left to close the body with.
  // Statements must follow a dropped token at the end of file, and do not.
  lemma {:induction false} NothingBehind(ts: Stream)
    requires ParseStatement(ts).Some? && Tail(ParseStatement(ts).value.1) == []
    ensures StatementLoop(ts, 0) == None
  {
    hide ParseGroup;
    assert ParseStatement([]) == None && StatementLoop([], 1) == None;
  }

  lemma {:induction false} BlockFails(ts: Stream, ts1: Stream)
    requires Head(ts) == Lexing.LeftCurlyBrace && Tail(ts) == ts1 && Head(ts1) == Lexing.If && StatementLoop(ts1, 0) == None
    ensures ParseBlock(ts) == None
  {
    hide StatementLoop;
  }

  lemma {:induction false} DroppedEndRead(ts: Stream, t1: Stream, t2: Stream, t3: Stream, t4: Stream, t5: Stream, t11: Stream)
    requires Head(ts) == Lexing.LeftCurlyBrace && Tail(ts) == t1
    requires Tail(t1) == t2 && Tail(t2) == t3 && Tail(t3) == t4 && Tail(t4) == t5 && Tail(t11) == []
    requires Head(t1) == Lexing.If && Head(t2) == Lexing.LeftParenthesis && Head(t3) == Lexing.Identifier && Head(t4) == Lexing.RightParenthesis
    requires ParseBlock(t5).Some? && ParseBlock(t5).value.1 == t11 && Head(t11) == Lexing.RightCurlyBrace
    ensures ParseBlock(ts) == None
  {
    hide ParseStatement, StatementLoop, ParseBlock;
    DroppedEndGroup(t1, t2, t3, t4, t5, t11);
    NothingBehind(t1);
    BlockFails(ts, t1);
  }

  // ----- a whole unit -----

  lemma {:induction false} ParametersLayout(ps: seq<Variable>, rest: Stream)
    requires ps != []
    ensures PrintParameters(ps) + rest ==
            PrintVariable(ps[0]) + if |ps| == 1 then rest else [Mark(Lexing.Comma)] + (PrintParameters(ps[1..]) + rest)
  {
    if |ps| == 1 {
      assert PrintParameters(ps[1..]) == [];
    }
  }

  lemma {:induction false} ParametersRead(ps: seq<Variable>, rest: Stream, n: nat)
    requires ps != [] && (forall p :: p in ps ==> PrintableVariable(p)) && Head(rest) == Lexing.RightParenthesis && n + |ps| <= LOOP_LIMIT
    ensures ParseParameters(PrintParameters(ps) + rest, n) == Some((ps, rest))
    decreases |ps|
  {
    hide Grammar.ParseVariable, PrintVariable;
    assert ps[0] in ps;
    ParametersLayout(ps, rest);
    if |ps| == 1 {
      VariableRead(ps[0], rest);
      assert ps == [ps[0]];
    } else {
      var others := PrintParameters(ps[1..]) + rest;
      HeadOf(Mark(Lexing.Comma), others);
      VariableRead(ps[0], [Mark(Lexing.Comma)] + others);
      forall p | p in ps[1..] ensures PrintableVariable(p) { assert p in ps; }
      ParametersRead(ps[1..], rest, n + 1);
      HeadTail(ps);
    }
  }

  // What may follow an item: a newline, and then no body.
  predicate AfterSource(rest: Stream) {
    Head(rest) == Lexing.Newline && Head(Tail(rest)) != Lexing.Newline && Head(Tail(rest)) != Lexing.LeftCurlyBrace
  }

  lemma {:induction false} GlobalRead(v: Variable, c: Option<Items.Constant>, rest: Stream)
    requires PrintableSource(Analysis.GlobalSource(v, c)) && Head(rest) == Lexing.Newline
    ensures ParseTop(PrintSource(Analysis.GlobalSource(v, c)) + rest) == Some((GlobalTop(v, c), rest))
  {
    hide ParseType, PrintVariable, Grammar.ParseVariable, ParseFunction;
    if c.None? {
      VariableRead(v, rest);
    } else {
      var literal := Lexing.Token(Lexing.IntegerLiteral, c.value.digits);
      assert PrintSource(Analysis.GlobalSource(v, c)) + rest == PrintVariable(v) + ([Mark(Lexing.Equal)] + ([literal] + rest));
      HeadOf(Mark(Lexing.Equal), [literal] + rest);
      HeadOf(literal, rest);
      VariableRead(v, [Mark(Lexing.Equal)] + ([literal] + rest));
    }
  }

  // The kind of a constant is that of the token behind it, so a string is taken
  // for an integer whose digits are its text.
  lemma {:induction false} StringAsInteger(v: Variable, text: string, rest: Stream)
    requires PrintableVariable(v) && Head(rest) == Lexing.Newline
    ensures ParseTop(PrintVariable(v) + ([Mark(Lexing.Equal)] + ([Lexing.Token(Lexing.StringLiteral, text)] + rest)))
            == Some((GlobalTop(v, Some(Items.ConstInteger(text))), rest))
  {
    hide ParseType, PrintVariable, Grammar.ParseVariable, ParseFunction;
    var literal := Lexing.Token(Lexing.StringLiteral, text);
    HeadOf(Mark(Lexing.Equal), [literal] + rest);
    HeadOf(literal, rest);
    VariableRead(v, [Mark(Lexing.Equal)] + ([literal] + rest));
  }

  lemma {:induction false} ParametersHead(ps: seq<Variable>, rest: Stream)
    requires forall p :: p in ps ==> PrintableVariable(p)
    ensures if ps == [] then PrintParameters(ps) + rest == rest else DataTypeOf(Head(PrintParameters(ps) + rest)).Some?
  {
    if ps == [] {
      assert [] + rest == rest;
    } else {
      ParametersLayout(ps, rest);
      assert ps[0] in ps;
      VariableRead(ps[0], if |ps| == 1 then rest else [Mark(Lexing.Comma)] + (PrintParameters(ps[1..]) + rest));
    }
  }

  lemma {:induction false} FunctionLayout(name: string, s: Signature, body: Option<Block>, rest: Stream)
    ensures PrintSource(Analysis.FunctionSource(name, s, body)) + rest ==
            PrintVariable(Variable(s.typ, name)) + ([Mark(Lexing.LeftParenthesis)] + (PrintParameters(s.parameters)
            + ([Mark(Lexing.RightParenthesis)] + if body.Some? then PrintBlock(body.value) + rest else rest)))
  {}

  // The header of a function, up to its closing parenthesis.
  function PrintHeader(name: string, s: Signature): Stream {
    PrintVariable(Variable(s.typ, name)) + [Mark(Lexing.LeftParenthesis)] + PrintParameters(s.parameters) + [Mark(Lexing.RightParenthesis)]
  }

  lemma {:induction false} HeaderTop(name: string, s: Signature, rest: Stream)
    requires PrintableVariable(Variable(s.typ, name))
    ensures ParseTop(PrintHeader(name, s) + rest)
            == ParseFunction(Variable(s.typ, name), PrintParameters(s.parameters) + ([Mark(Lexing.RightParenthesis)] + rest))
  {
    hide ParseFunction, PrintParameters, PrintVariable, Grammar.ParseVariable;
    var open := PrintParameters(s.parameters) + ([Mark(Lexing.RightParenthesis)] + rest);
    assert PrintHeader(name, s) + rest == PrintVariable(Variable(s.typ, name)) + ([Mark(Lexing.LeftParenthesis)] + open);
    VariableRead(Variable(s.typ, name), [Mark(Lexing.LeftParenthesis)] + open);
    HeadOf(Mark(Lexing.LeftParenthesis), open);
  }

  // Behind a header `[ ]` is read over, and so is a `[` that nothing closes.
  lemma {:induction false} DirectiveIgnored(name: string, s: Signature, rest: Stream)
    requires PrintableVariable(Variable(s.typ, name)) && |s.parameters| <= LOOP_LIMIT && forall p :: p in s.parameters ==> PrintableVariable(p)
    requires Head(rest) != Lexing.LeftBracket
    ensures ParseTop(PrintHeader(name, s) + ([Mark(Lexing.LeftBracket), Mark(Lexing.RightBracket)] + rest)) == ParseTop(PrintHeader(name, s) + rest)
    ensures Head(rest) != Lexing.RightBracket ==>
              ParseTop(PrintHeader(name, s) + ([Mark(Lexing.LeftBracket)] + rest)) == ParseTop(PrintHeader(name, s) + rest)
  {
    hide PrintHeader, ParseTop, PrintParameters;
    var closed := [Mark(Lexing.LeftBracket), Mark(Lexing.RightBracket)] + rest;
    var unclosed := [Mark(Lexing.LeftBracket)] + rest;
    assert closed == [Mark(Lexing.LeftBracket)] + ([Mark(Lexing.RightBracket)] + rest);
    HeadOf(Mark(Lexing.LeftBracket), [Mark(Lexing.RightBracket)] + rest);
    HeadOf(Mark(Lexing.RightBracket), rest);
    HeadOf(Mark(Lexing.LeftBracket), rest);
    assert ParseDirective(closed) == (true, rest) && ParseDirective(rest) == (true, rest);
    HeaderTop(name, s, rest);
    HeaderTop(name, s, closed);
    HeaderTop(name, s, unclosed);
    DirectiveRead(name, s, rest, rest);
    DirectiveRead(name, s, closed, rest);
    if Head(rest) != Lexing.RightBracket {
      assert ParseDirective(unclosed) == (false, rest);
      DirectiveRead(name, s, unclosed, rest);
    }
  }

  // Between items parentheses, closing brackets, curly braces, commas and newlines
  // are dropped one by one; `[ ]` is dropped with the token behind it; nothing else can stand
  // there but the type an item begins with.
  lemma {:induction false} BetweenItems(t: Lexing.Token, rest: Stream, n: nat)
    requires n < 1_000_000
    ensures t.typ in {Lexing.LeftParenthesis, Lexing.RightParenthesis, Lexing.LeftCurlyBrace, Lexing.RightCurlyBrace, Lexing.RightBracket, Lexing.Comma,
                      Lexing.Newline} ==>
              TopLoop([t] + rest, n) == TopLoop(rest, n + 1)
    ensures t.typ == Lexing.LeftBracket ==>
              TopLoop([t] + rest, n) == if Head(rest) == Lexing.RightBracket then TopLoop(Tail(Tail(rest)), n + 1) else None
    ensures t.typ in {Lexing.NoToken, Lexing.Identifier, Lexing.If, Lexing.Else, Lexing.Elif, Lexing.Return, Lexing.Plus, Lexing.Minus, Lexing.Or,
                      Lexing.And, Lexing.Equal, Lexing.Star, Lexing.Ampersand, Lexing.IntegerLiteral, Lexing.StringLiteral} ==>
              TopLoop([t] + rest, n) == None
  {
    HeadOf(t, rest);
  }

  // Behind the parameters and what is left of a directive.
  lemma {:induction false} DirectiveRead(name: string, s: Signature, behind: Stream, rest: Stream)
    requires |s.parameters| <= LOOP_LIMIT && (forall p :: p in s.parameters ==> PrintableVariable(p)) && ParseDirective(behind).1 == rest
    ensures ParseFunction(Variable(s.typ, name), PrintParameters(s.parameters) + ([Mark(Lexing.RightParenthesis)] + behind))
            == if Head(rest) == Lexing.LeftCurlyBrace || Ahead(rest) == Lexing.LeftCurlyBrace then
                 (if SkipBody(rest).Some? then Some((FunctionTop(name, s, Some(rest)), SkipBody(rest).value)) else None)
               else Some((FunctionTop(name, s, None), rest))
  {
    hide ParseDirective, SkipBody, PrintParameters, PrintableVariable, Ahead;
    var close := [Mark(Lexing.RightParenthesis)] + behind;
    HeadOf(Mark(Lexing.RightParenthesis), behind);
    ParametersHead(s.parameters, close);
    if s.parameters != [] {
      ParametersRead(s.parameters, close, 0);
    }
  }

  // What decides between a definition and a declaration.
  lemma {:induction false} BehindHeader(body: Option<Block>, rest: Stream)
    requires (body.Some? ==> PrintableBlock(body.value) && |PrintBlock(body.value)| <= LOOP_LIMIT) && (body.None? ==> AfterSource(rest))
    ensures var behind := if body.Some? then PrintBlock(body.value) + rest else rest;
            && Head(behind) != Lexing.LeftBracket
            && (body.Some? <==> Head(behind) == Lexing.LeftCurlyBrace || Ahead(behind) == Lexing.LeftCurlyBrace)
            && (body.Some? ==> SkipBody(behind) == Some([Mark(Lexing.RightCurlyBrace)] + rest))
  {
    hide PrintBlock, SkipBody, PrintableBlock;
    if body.Some? {
      PassesAgree(body.value, rest);
      BlockLayout(body.value, rest);
    } else {
      AheadOf(rest);
    }
  }

  lemma {:induction false} FunctionRead(name: string, s: Signature, body: Option<Block>, rest: Stream)
    requires PrintableSource(Analysis.FunctionSource(name, s, body)) && AfterSource(rest)
    ensures ParseTop(PrintSource(Analysis.FunctionSource(name, s, body)) + rest) ==
            if body.Some? then Some((FunctionTop(name, s, Some(PrintBlock(body.value) + rest)), [Mark(Lexing.RightCurlyBrace)] + rest))
            else Some((FunctionTop(name, s, None), rest))
  {
    hide PrintBlock, SkipBody, PrintParameters, PrintVariable, PrintableBlock, AfterSource, ParseFunction;
    var behind := if body.Some? then PrintBlock(body.value) + rest else rest;
    var open := PrintParameters(s.parameters) + ([Mark(Lexing.RightParenthesis)] + behind);
    FunctionLayout(name, s, body, rest);
    VariableRead(Variable(s.typ, name), [Mark(Lexing.LeftParenthesis)] + open);
    HeadOf(Mark(Lexing.LeftParenthesis), open);
    BehindHeader(body, rest);
    DirectiveRead(name, s, behind, behind);
  }

  lemma {:induction false} SourceStarts(s: Analysis.Source, rest: Stream)
    requires PrintableSource(s)
    ensures DataTypeOf(Head(PrintSource(s) + rest)).Some?
  {
    match s
    case GlobalSource(v, None) => VariableRead(v, rest);
    case GlobalSource(v, Some(ConstInteger(digits))) =>
      var more := [Mark(Lexing.Equal), Lexing.Token(Lexing.IntegerLiteral, digits)];
      assert PrintSource(s) + rest == PrintVariable(v) + (more + rest);
      VariableRead(v, more + rest);
    case FunctionSource(name, signature, body) =>
      FunctionLayout(name, signature, body, rest);
      VariableRead(Variable(signature.typ, name), [Mark(Lexing.LeftParenthesis)] + (PrintParameters(signature.parameters)
                   + ([Mark(Lexing.RightParenthesis)] + if body.Some? then PrintBlock(body.value) + rest else rest)));
  }

  // Both passes over ts give the items.
  ghost predicate Gives(ts: Stream, n: nat, sources: seq<Analysis.Source>) {
    TopLoop(ts, n).Some? && ParseBodies(TopLoop(ts, n).value) == Some(sources)
  }

  ghost predicate Printables(sources: seq<Analysis.Source>) {
    forall s :: s in sources ==> PrintableSource(s)
  }

  // Wherever the loop counter stands, within the limit.
  ghost predicate ReadsBack(sources: seq<Analysis.Source>) {
    forall n: nat :: n + 2 * |sources| < LOOP_LIMIT ==> Gives(Print(sources), n, sources)
  }

  // One turn of the first pass per item, and one more for the brace of a body.
  lemma {:induction false} TopsRead(sources: seq<Analysis.Source>)
    requires Printables(sources)
    ensures ReadsBack(sources)
    decreases |sources|
  {
    if sources == [] {
      forall n: nat ensures Gives(Print([]), n, []) {
        NothingRead(n);
      }
    } else {
      PrintablesFirst(sources);
      TopsRead(sources[1..]);
      ReadsMore(sources);
    }
  }

  lemma {:induction false} ReadsMore(sources: seq<Analysis.Source>)
    requires sources != [] && PrintableSource(sources[0]) && Printables(sources[1..]) && ReadsBack(sources[1..])
    ensures ReadsBack(sources)
  {
    PrintStarts(sources[1..]);
    forall n: nat | n + 2 * |sources| < LOOP_LIMIT ensures Gives(Print(sources), n, sources) {
      assert Gives(Print(sources[1..]), n + 1, sources[1..]) && Gives(Print(sources[1..]), n + 2, sources[1..]);
      TopsStep(sources, n);
    }
  }

  lemma {:induction false} NothingRead(n: nat)
    ensures Gives(Print([]), n, [])
  {
    assert TopLoop([], n) == Some([]) && ParseBodies([]) == Some([]);
  }

  lemma {:induction false} PrintablesFirst(sources: seq<Analysis.Source>)
    requires Printables(sources) && sources != []
    ensures PrintableSource(sources[0]) && Printables(sources[1..])
  {}

  lemma {:induction false} TopsStep(sources: seq<Analysis.Source>, n: nat)
    requires sources != [] && PrintableSource(sources[0]) && n + 1 < LOOP_LIMIT
    requires sources[1..] == [] || DataTypeOf(Head(Print(sources[1..]))).Some?
    requires Gives(Print(sources[1..]), n + 1, sources[1..]) && Gives(Print(sources[1..]), n + 2, sources[1..])
    ensures Gives(Print(sources), n, sources)
  {
    var others := Print(sources[1..]);
    PrintLayout(sources);
    HeadTail(sources);
    ItemRead(sources[0], others, n, sources[1..]);
  }

  lemma {:induction false} ItemRead(s: Analysis.Source, others: Stream, n: nat, sources: seq<Analysis.Source>)
    requires PrintableSource(s) && (others == [] || DataTypeOf(Head(others)).Some?) && n + 1 < LOOP_LIMIT
    requires Gives(others, n + 1, sources) && Gives(others, n + 2, sources)
    ensures Gives(PrintSource(s) + ([Lexing.NEWLINE] + others), n, [s] + sources)
  {
    var rest := [Lexing.NEWLINE] + others;
    HeadOf(Lexing.NEWLINE, others);
    TopRead(s, rest);
    TurnRead(s, others, n);
    BodiesCons(TopOf(s, rest), TopLoop(others, if StopOf(s, rest) == rest then n + 1 else n + 2).value, s, sources);
  }

  lemma {:induction false} BodiesCons(top: Top, tops: seq<Top>, s: Analysis.Source, sources: seq<Analysis.Source>)
    requires ParseBodyOf(top) == Some(s) && ParseBodies(tops) == Some(sources)
    ensures ParseBodies([top] + tops) == Some([s] + sources)
  {
    assert ([top] + tops)[1..] == tops;
  }

  lemma {:induction false} PrintLayout(sources: seq<Analysis.Source>)
    requires sources != []
    ensures Print(sources) == PrintSource(sources[0]) + ([Lexing.NEWLINE] + Print(sources[1..]))
  {}

  lemma {:induction false} PrintStarts(sources: seq<Analysis.Source>)
    requires Printables(sources)
    ensures sources == [] || DataTypeOf(Head(Print(sources))).Some?
  {
    if sources != [] {
      assert sources[0] in sources;
      PrintLayout(sources);
      SourceStarts(sources[0], [Lexing.NEWLINE] + Print(sources[1..]));
    }
  }

  // What the first pass records of an item, and where it stops.
  function TopOf(s: Analysis.Source, rest: Stream): Top {
    match s
    case GlobalSource(v, c) => GlobalTop(v, c)
    case FunctionSource(name, signature, None) => FunctionTop(name, signature, None)
    case FunctionSource(name, signature, Some(b)) => FunctionTop(name, signature, Some(PrintBlock(b) + rest))
  }

  function StopOf(s: Analysis.Source, rest: Stream): Stream {
    if s.FunctionSource? && s.body.Some? then [Mark(Lexing.RightCurlyBrace)] + rest else rest
  }

  lemma {:induction false} TopRead(s: Analysis.Source, rest: Stream)
    requires PrintableSource(s) && AfterSource(rest)
    ensures ParseTop(PrintSource(s) + rest) == Some((TopOf(s, rest), StopOf(s, rest)))
    ensures ParseBodyOf(TopOf(s, rest)) == Some(s)
  {
    hide PrintBlock, ParseBlock, ParseTop, PrintSource;
    match s
    case GlobalSource(v, c) => GlobalRead(v, c, rest);
    case FunctionSource(name, signature, body) =>
      FunctionRead(name, signature, body, rest);
      if body.Some? {
        BlockRead(body.value, rest);
      }
  }

  // The turns for one item: the rest is read from behind its newline.
  lemma {:induction false} TurnRead(s: Analysis.Source, others: Stream, n: nat)
    requires PrintableSource(s) && AfterSource([Lexing.NEWLINE] + others) && n + 1 < LOOP_LIMIT
    requires TopLoop(others, n + 1).Some? && TopLoop(others, n + 2).Some?
    ensures var rest := [Lexing.NEWLINE] + others; var m := if StopOf(s, rest) == rest then n + 1 else n + 2;
            TopLoop(PrintSource(s) + rest, n) == Some([TopOf(s, rest)] + TopLoop(others, m).value)
  {
    hide PrintableSource, AfterSource, TopOf, Head, ParseTop, PrintVariable, PrintParameters, PrintBlock;
    var rest := [Lexing.NEWLINE] + others;
    HeadOf(Lexing.NEWLINE, others);
    HeadOf(Mark(Lexing.RightCurlyBrace), rest);
    SourceStarts(s, rest);
    TopRead(s, rest);
    assert Tail(rest) == others;
    assert |[Mark(Lexing.RightCurlyBrace)] + rest| != |rest|;
    assert TopLoop(rest, n + 1) == TopLoop(others, n + 2);
  }

  // Tokens of a printed unit, parsed in two passes.
  lemma {:induction false} ParserRoundTrip(sources: seq<Analysis.Source>)
    requires (forall s :: s in sources ==> PrintableSource(s)) && 2 * |sources| < LOOP_LIMIT
    ensures Parse(Print(sources)) == Some(sources)
  {
    TopsRead(sources);
    assert Gives(Print(sources), 0, sources);
  }

  lemma {:induction false} PrintEnds(sources: seq<Analysis.Source>)
    requires sources != []
    ensures Text.EndsInNewline(Print(sources))
    decreases |sources|
  {
    if |sources| > 1 {
      PrintEnds(sources[1..]);
    } else {
      assert Print(sources[1..]) == [];
    }
  }

  // The same from the text.
  lemma {:induction false} TextRoundTrip(sources: seq<Analysis.Source>)
    requires (forall s :: s in sources ==> PrintableSource(s)) && 2 * |sources| < LOOP_LIMIT
    requires forall t :: t in Print(sources) ==> Text.Legal(t)
    ensures var ts := Lexing.Tokens(Text.Printed(Print(sources)), 0);
            ts.Some? && Parse(ts.value) == Some(sources)
  {
    Text.LexerRoundTrip(Print(sources));
    if sources == [] {
      var ts := [Lexing.NEWLINE];
      assert [] + ts == ts && ts[1..] == [];
      assert TopLoop([], 1) == Some([]) && ParseDirective(ts) == (true, ts) && Tail(ts) == [];
      assert TopLoop(ts, 0) == Some([]);
    } else {
      PrintEnds(sources);
      assert Print(sources) + [] == Print(sources);
      ParserRoundTrip(sources);
    }
  }

  // Going back to where a body was recorded gives the same current token and
  // the same text behind it: the token there has one character.
  lemma {:induction false} RestartReproduces(input: string, i: nat)
    requires i <= |input| && Lexing.NextToken(input, i).Some?
    requires var t := Lexing.NextToken(input, i).value.0; t.typ == Lexing.LeftCurlyBrace || t.typ == Lexing.Newline
    ensures var (t, j) := Lexing.NextToken(input, i).value;
            j >= 1 && Lexing.NextToken(input, j - 1) == Some((t, j)) && Lexing.Tokens(input, j - 1) ==
            (if Lexing.Tokens(input, j).Some? then Some([t] + Lexing.Tokens(input, j).value) else None)
  {
    Text.OneCharacter(input, i);
  }

  // On every recorded definition: going back to where its body was recorded,
  // one character in front of the index then, gives the tokens of the body.
  lemma {:induction false} RecordedRestarts(input: string, i: nat, v: Variable, ts: Stream)
    requires ParseFunction(v, ts).Some? && ParseFunction(v, ts).value.0.start.Some?
    requires i <= |input| && Lexing.Tokens(input, i) == Some(ParseFunction(v, ts).value.0.start.value)
    ensures var start, j := ParseFunction(v, ts).value.0.start.value, Lexing.NextToken(input, i).value.1;
            j >= 1 && Lexing.Tokens(input, j - 1) == Some(start)
  {
    var start := ParseFunction(v, ts).value.0.start.value;
    assert Head(start) == Lexing.LeftCurlyBrace || Head(start) == Lexing.Newline;
    RestartReproduces(input, i);
  }
}
