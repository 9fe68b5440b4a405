/**
  When the two passes of the parser agree on a body. The first pass counts
  braces, the second reads statements; they can only part at the tokens that
  the second one drops unseen, one behind every statement.
 */
module Skipping {
  import opened Wrappers
  import opened Ast
  import Lexing
  import opened Grammar

  // ----- the first pass, without its limit -----

  // The tokens from the first brace at which the nesting is back at zero.
  function Closing(ts: Stream, d: nat): (r: Option<Stream>)
    requires d > 0
    ensures r.Some? ==> 0 < |r.value| <= |ts|
    decreases |ts|
  {
    if ts == [] then None
    else if Deeper(Head(ts), d) == 0 then Some(ts)
    else Closing(Tail(ts), Deeper(Head(ts), d))
  }

  // The counter loop finds it, unless its limit comes first.
  lemma {:induction false} SkipIsClosing(ts: Stream, d: nat, n: nat)
    requires d > 0 && n <= LOOP_LIMIT + 1
    ensures var c := Closing(ts, d);
            SkipBraces(ts, d, n) == if c.Some? && n + |ts| - |c.value| <= LOOP_LIMIT + 1 then c else None
    decreases |ts|
  {
    if ts != [] && Deeper(Head(ts), d) != 0 && n <= LOOP_LIMIT {
      SkipIsClosing(Tail(ts), Deeper(Head(ts), d), n + 1);
    }
  }

  // ----- what the second pass leaves to the count -----

  // The braces of the blocks it reads, and the tokens it drops.
  datatype Step = Opened | Closed | Dropped(token: Kind)

  function StepKind(s: Step): Kind {
    match s
    case Opened => Lexing.LeftCurlyBrace
    case Closed => Lexing.RightCurlyBrace
    case Dropped(t) => t
  }

  // The nesting behind the steps; zero once a step has closed everything.
  function Count(steps: seq<Step>, d: nat): nat
    requires d > 0
    decreases |steps|
  {
    if steps == [] then d
    else
      var e := Deeper(StepKind(steps[0]), d);
      if e == 0 then 0 else Count(steps[1..], e)
  }

  lemma {:induction false} CountAppend(a: seq<Step>, b: seq<Step>, d: nat)
    requires d > 0
    ensures Count(a + b, d) == if Count(a, d) == 0 then 0 else Count(b, Count(a, d))
    decreases |a|
  {
    if a == [] {
      assert a + b == b;
    } else {
      assert (a + b)[1..] == a[1..] + b;
      var e := Deeper(StepKind(a[0]), d);
      if e > 0 {
        CountAppend(a[1..], b, e);
      }
    }
  }

  lemma {:induction false} CountOne(s: Step, d: nat)
    requires d > 0
    ensures Count([s], d) == Deeper(StepKind(s), d)
  {
    assert [s][1..] == [];
  }

  // The steps of a list of statements, read as the grammar reads them.
  function StepsOfStatements(ts: Stream): seq<Step>
    requires Grammar.ParseStatements(ts).Some?
    decreases |ts|, 6
  {
    if EndsStatements(Head(ts)) then [] else StepsOfLoop(SkipNewlines(ts), 0)
  }

  function StepsOfLoop(ts: Stream, n: nat): seq<Step>
    requires StatementLoop(ts, n).Some?
    decreases |ts|, 5
  {
    var ts1 := ParseStatement(ts).value.1;
    var ts2 := SkipNewlines(Tail(ts1));
    StepsOfStatement(ts) + ([Dropped(Head(ts1))] + if EndsStatements(Head(ts2)) || n >= LOOP_LIMIT then [] else StepsOfLoop(ts2, n + 1))
  }

  function StepsOfStatement(ts: Stream): seq<Step>
    requires ParseStatement(ts).Some?
    decreases |ts|, 4
  {
    if Head(ts) == Lexing.If then StepsOfGroup(ts, true) else []
  }

  function StepsOfGroup(ts: Stream, start: bool): seq<Step>
    requires ParseGroup(ts, start).Some?
    decreases |ts|, 3
  {
    var ts0 := SkipNewlines(ts);
    var ts1 := ParseBranch(ts0, start).value.1;
    StepsOfBranch(ts0, start) + if Ahead(ts1) == Lexing.Elif || Ahead(ts1) == Lexing.Else then StepsOfGroup(ts1, false) else []
  }

  function StepsOfBranch(ts: Stream, start: bool): seq<Step>
    requires ParseBranch(ts, start).Some?
    decreases |ts|, 2
  {
    StepsOfBlock(BlockOf(ts, start))
  }

  // Where the block of a branch starts.
  function BlockOf(ts: Stream, start: bool): (r: Stream)
    requires ParseBranch(ts, start).Some?
    ensures |r| < |ts| && Grammar.ParseBlock(r).Some? && ParseBranch(ts, start).value.1 == Grammar.ParseBlock(r).value.1
  {
    if Head(ts) == Lexing.Else then Tail(ts) else Tail(Grammar.ParseExpression(Tail(Tail(ts))).value.1)
  }

  function StepsOfBlock(ts: Stream): seq<Step>
    requires Grammar.ParseBlock(ts).Some?
    decreases |ts|, 1
  {
    [Opened] + (StepsOfBody(ts) + [Closed])
  }

  // Between the braces of a block.
  function StepsOfBody(ts: Stream): seq<Step>
    requires Grammar.ParseBlock(ts).Some?
    decreases |ts|, 0
  {
    StepsOfStatements(InnerOf(ts))
  }

  function InnerOf(ts: Stream): (r: Stream)
    requires Grammar.ParseBlock(ts).Some?
    ensures |r| < |ts| && Grammar.ParseStatements(r).Some?
  {
    SkipNewlines(Tail(SkipNewlines(ts)))
  }

  // The closing brace that the second pass reads, and what is behind it.
  function EndOf(ts: Stream): (r: Stream)
    requires Grammar.ParseBlock(ts).Some?
    ensures Head(r) == Lexing.RightCurlyBrace && r != [] && Tail(r) == Grammar.ParseBlock(ts).value.1
  {
    var ts1 := Grammar.ParseStatements(InnerOf(ts)).value.1;
    SkipNewlines(Grammar.ParseReturn(ts1).value.1)
  }

  // ----- the tokens without braces -----

  predicate IsBrace(t: Kind) { t == Lexing.LeftCurlyBrace || t == Lexing.RightCurlyBrace }

  // Between ts and rest the count does not change.
  ghost predicate Level(ts: Stream, rest: Stream, d: nat)
    requires d > 0
  {
    Closing(ts, d) == Closing(rest, d)
  }

  lemma {:induction false} Over(ts: Stream, d: nat)
    requires d > 0 && !IsBrace(Head(ts))
    ensures Level(ts, Tail(ts), d)
  {}

  lemma {:induction false} NewlinesLevel(ts: Stream, n: nat, d: nat)
    requires d > 0 && Head(ts) == Lexing.Newline
    ensures Level(ts, SkipLoop(ts, n), d)
    decreases |ts|
  {
    Over(ts, d);
    if Head(Tail(ts)) == Lexing.Newline && n <= LOOP_LIMIT {
      NewlinesLevel(Tail(ts), n + 1, d);
    }
  }

  lemma {:induction false} SkipLevel(ts: Stream, d: nat)
    requires d > 0
    ensures Level(ts, SkipNewlines(ts), d)
  {
    if Head(ts) == Lexing.Newline {
      NewlinesLevel(ts, 0, d);
    }
  }

  lemma {:induction false} PrefixLevel(ts: Stream, step: int, afterAmp: bool, n: nat, d: nat)
    requires d > 0 && PrefixLoop(ts, step, afterAmp, n).Some?
    ensures Level(ts, PrefixLoop(ts, step, afterAmp, n).value.1, d)
    decreases |ts|, 1
  {
    if Head(ts) == Lexing.Ampersand {
      Over(ts, d);
      PrefixNextLevel(Tail(ts), step + 1, true, n, d);
    } else if Head(ts) == Lexing.Star {
      Over(ts, d);
      PrefixNextLevel(Tail(ts), step - 1, false, n, d);
    }
  }

  lemma {:induction false} PrefixNextLevel(ts: Stream, step: int, afterAmp: bool, n: nat, d: nat)
    requires d > 0 && PrefixNext(ts, step, afterAmp, n).Some?
    ensures Level(ts, PrefixNext(ts, step, afterAmp, n).value.1, d)
    decreases |ts|, 2
  {
    if n < LOOP_LIMIT {
      PrefixLevel(ts, step, afterAmp, n + 1, d);
    }
  }

  lemma {:induction false} OperandLevel(ts: Stream, d: nat)
    requires d > 0 && ParseOperand(ts).Some?
    ensures Level(ts, ParseOperand(ts).value.1, d)
    decreases |ts|, 0
  {
    var ts1 := PrefixLoop(ts, 0, false, 0).value.1;
    PrefixLevel(ts, 0, false, 0, d);
    Over(ts1, d);
    if Head(ts1) == Lexing.Identifier && Head(Tail(ts1)) == Lexing.LeftParenthesis {
      CallLevel(Value(ts1), Tail(ts1), d);
    }
  }

  lemma {:induction false} UnitLevel(ts: Stream, first: bool, d: nat)
    requires d > 0 && ParseUnit(ts, first).Some?
    ensures Level(ts, ParseUnit(ts, first).value.1, d)
    decreases |ts|, 1
  {
    if first {
      OperandLevel(ts, d);
    } else {
      Over(ts, d);
      OperandLevel(Tail(ts), d);
    }
  }

  lemma {:induction false} UnitsLevel(ts: Stream, first: bool, n: nat, d: nat)
    requires d > 0 && ParseUnits(ts, first, n).Some?
    ensures Level(ts, ParseUnits(ts, first, n).value.1, d)
    decreases |ts|, 2
  {
    UnitLevel(ts, first, d);
    var ts1 := ParseUnit(ts, first).value.1;
    if IsOperator(Head(ts1)) && n < LOOP_LIMIT {
      UnitsLevel(ts1, false, n + 1, d);
    }
  }

  lemma {:induction false} ExpressionLevel(ts: Stream, d: nat)
    requires d > 0 && Grammar.ParseExpression(ts).Some?
    ensures Level(ts, Grammar.ParseExpression(ts).value.1, d)
    decreases |ts|, 3
  {
    UnitsLevel(ts, true, 0, d);
  }

  lemma {:induction false} ArgumentsLevel(ts: Stream, n: nat, d: nat)
    requires d > 0 && ParseArguments(ts, n).Some?
    ensures Level(ts, ParseArguments(ts, n).value.1, d)
    decreases |ts|, 4
  {
    ExpressionLevel(ts, d);
    var ts1 := Grammar.ParseExpression(ts).value.1;
    if Head(ts1) == Lexing.Comma {
      Over(ts1, d);
      if n < LOOP_LIMIT {
        ArgumentsLevel(Tail(ts1), n + 1, d);
      }
    }
  }

  lemma {:induction false} CallLevel(name: string, ts: Stream, d: nat)
    requires d > 0 && ParseCall(name, ts).Some?
    ensures Level(ts, ParseCall(name, ts).value.1, d)
    decreases |ts|, 0
  {
    Over(ts, d);
    var ts1 := Tail(ts);
    if Head(ts1) == Lexing.RightParenthesis {
      Over(ts1, d);
    } else {
      ArgumentsLevel(ts1, 0, d);
      Over(ParseArguments(ts1, 0).value.1, d);
    }
  }

  lemma {:induction false} DepthLevel(ts: Stream, depth: nat, d: nat)
    requires d > 0 && Head(ts) == Lexing.Ampersand
    ensures Level(ts, DepthLoop(ts, depth).1, d)
    decreases |ts|
  {
    Over(ts, d);
    if Head(Tail(ts)) == Lexing.Ampersand && depth + 1 < LOOP_LIMIT {
      DepthLevel(Tail(ts), depth + 1, d);
    }
  }

  lemma {:induction false} VariableLevel(ts: Stream, d: nat)
    requires d > 0 && Grammar.ParseVariable(ts).Some?
    ensures Level(ts, Grammar.ParseVariable(ts).value.1, d)
  {
    Over(ts, d);
    if Head(Tail(ts)) == Lexing.Ampersand {
      DepthLevel(Tail(ts), 1, d);
    }
    Over(ParseType(ts).value.1, d);
  }

  lemma {:induction false} AssignedLevel(ts: Stream, d: nat)
    requires d > 0 && ParseAssigned(ts).Some?
    ensures Level(ts, ParseAssigned(ts).value.1, d)
  {
    Over(ts, d);
    ExpressionLevel(Tail(ts), d);
  }

  lemma {:induction false} CallOrAssignmentLevel(ts: Stream, stars: nat, d: nat)
    requires d > 0 && ParseCallOrAssignment(ts, stars).Some?
    ensures Level(ts, ParseCallOrAssignment(ts, stars).value.1, d)
  {
    Over(ts, d);
    if Head(Tail(ts)) == Lexing.Equal {
      AssignedLevel(Tail(ts), d);
    } else {
      CallLevel(Value(ts), Tail(ts), d);
    }
  }

  lemma {:induction false} StarsLevel(ts: Stream, stars: nat, n: nat, d: nat)
    requires d > 0
    ensures Level(ts, StarLoop(ts, stars, n).1, d)
    decreases |ts|
  {
    if Head(ts) == Lexing.Star {
      Over(ts, d);
      if n < LOOP_LIMIT {
        StarsLevel(Tail(ts), stars + 1, n + 1, d);
      }
    }
  }

  lemma {:induction false} DeclarationLevel(ts: Stream, d: nat)
    requires d > 0 && ParseDeclaration(ts).Some?
    ensures Level(ts, ParseDeclaration(ts).value.1, d)
  {
    VariableLevel(ts, d);
    var ts1 := Grammar.ParseVariable(ts).value.1;
    if Head(ts1) == Lexing.Equal {
      AssignedLevel(ts1, d);
    }
  }

  lemma {:induction false} SimpleLevel(ts: Stream, d: nat)
    requires d > 0 && ParseStatement(ts).Some? && Head(ts) != Lexing.If
    ensures Level(ts, ParseStatement(ts).value.1, d)
  {
    match Head(ts)
    case Star =>
      var (stars, ts1) := StarLoop(ts, 0, 0);
      StarsLevel(ts, 0, 0, d);
      CallOrAssignmentLevel(ts1, stars, d);
    case Identifier => CallOrAssignmentLevel(ts, 0, d);
    case _ => DeclarationLevel(ts, d);
  }

  lemma {:induction false} ReturnLevel(ts: Stream, d: nat)
    requires d > 0 && Grammar.ParseReturn(ts).Some?
    ensures Level(ts, Grammar.ParseReturn(ts).value.1, d)
  {
    if Head(ts) == Lexing.Return {
      Over(ts, d);
      ExpressionLevel(Tail(ts), d);
    }
  }

  // ----- the count follows the steps -----

  // From ts to rest the first pass counts as the steps do, or it has stopped
  // on the way.
  ghost predicate Follows(ts: Stream, rest: Stream, steps: seq<Step>, d: nat)
    requires d > 0
  {
    && |rest| <= |ts|
    && if Count(steps, d) > 0 then Closing(ts, d) == Closing(rest, Count(steps, d))
       else Closing(ts, d).Some? && |Closing(ts, d).value| > |rest|
  }

  lemma {:induction false} FollowsBoth(ts: Stream, mid: Stream, rest: Stream, a: seq<Step>, b: seq<Step>, d: nat)
    requires d > 0 && Follows(ts, mid, a, d) && |rest| <= |mid|
    requires Count(a, d) > 0 ==> Follows(mid, rest, b, Count(a, d))
    ensures Follows(ts, rest, a + b, d)
  {
    CountAppend(a, b, d);
  }

  lemma {:induction false} FollowsNone(ts: Stream, rest: Stream, d: nat)
    requires d > 0 && Level(ts, rest, d) && |rest| <= |ts|
    ensures Follows(ts, rest, [], d)
  {}

  // A level stretch in front or behind.
  lemma {:induction false} FollowsFrom(ts: Stream, mid: Stream, rest: Stream, steps: seq<Step>, d: nat)
    requires d > 0 && Level(ts, mid, d) && |mid| <= |ts| && Follows(mid, rest, steps, d)
    ensures Follows(ts, rest, steps, d)
  {}

  lemma {:induction false} FollowsTo(ts: Stream, mid: Stream, rest: Stream, steps: seq<Step>, d: nat)
    requires d > 0 && Follows(ts, mid, steps, d) && |rest| <= |mid|
    requires Count(steps, d) > 0 ==> Level(mid, rest, Count(steps, d))
    ensures Follows(ts, rest, steps, d)
  {}

  lemma {:induction false} FollowsStep(ts: Stream, s: Step, d: nat)
    requires d > 0 && ts != [] && Head(ts) == StepKind(s)
    ensures Follows(ts, Tail(ts), [s], d)
  {
    CountOne(s, d);
  }

  // At the end of file there is nothing to drop.
  lemma {:induction false} FollowsDrop(ts: Stream, d: nat)
    requires d > 0
    ensures Follows(ts, Tail(ts), [Dropped(Head(ts))], d)
  {
    CountOne(Dropped(Head(ts)), d);
  }

  lemma {:induction false} StatementsFollow(ts: Stream, d: nat)
    requires d > 0 && Grammar.ParseStatements(ts).Some?
    ensures Follows(ts, Grammar.ParseStatements(ts).value.1, StepsOfStatements(ts), d)
    decreases |ts|, 6
  {
    if !EndsStatements(Head(ts)) {
      var ts0 := SkipNewlines(ts);
      SkipLevel(ts, d);
      LoopFollows(ts0, 0, d);
      FollowsFrom(ts, ts0, StatementLoop(ts0, 0).value.1, StepsOfLoop(ts0, 0), d);
    }
  }

  // A turn of the loop: one statement, the token behind it, the other turns.
  lemma {:induction false} LoopParts(ts: Stream, n: nat)
    requires StatementLoop(ts, n).Some?
    ensures ParseStatement(ts).Some?
    ensures var ts1 := ParseStatement(ts).value.1; var ts2 := SkipNewlines(Tail(ts1));
            && |ts2| <= |ts1| < |ts|
            && StepsOfLoop(ts, n) == StepsOfStatement(ts) + ([Dropped(Head(ts1))] + StepsBehind(ts2, n))
            && StatementLoop(ts, n).value.1 == RestBehind(ts2, n)
  {}

  predicate TurnsEnd(ts: Stream, n: nat) { EndsStatements(Head(ts)) || n >= LOOP_LIMIT }

  function StepsBehind(ts: Stream, n: nat): seq<Step> {
    if TurnsEnd(ts, n) || StatementLoop(ts, n + 1).None? then [] else StepsOfLoop(ts, n + 1)
  }

  function RestBehind(ts: Stream, n: nat): (r: Stream)
    ensures |r| <= |ts|
  {
    if TurnsEnd(ts, n) || StatementLoop(ts, n + 1).None? then ts else StatementLoop(ts, n + 1).value.1
  }

  lemma {:induction false} LoopFollows(ts: Stream, n: nat, d: nat)
    requires d > 0 && StatementLoop(ts, n).Some?
    ensures Follows(ts, StatementLoop(ts, n).value.1, StepsOfLoop(ts, n), d)
    decreases |ts|, 5
  {
    LoopParts(ts, n);
    var ts1 := ParseStatement(ts).value.1;
    var a, e := StepsOfStatement(ts), Count(StepsOfStatement(ts), d);
    StatementFollows(ts, d);
    if e > 0 {
      BehindFollows(ts1, n, e);
    }
    FollowsBoth(ts, ts1, StatementLoop(ts, n).value.1, a, [Dropped(Head(ts1))] + StepsBehind(SkipNewlines(Tail(ts1)), n), d);
  }

  lemma {:induction false} BehindFollows(ts: Stream, n: nat, d: nat)
    requires d > 0
    ensures var ts1 := SkipNewlines(Tail(ts)); Follows(ts, RestBehind(ts1, n), [Dropped(Head(ts))] + StepsBehind(ts1, n), d)
    decreases |ts|, 7
  {
    var ts1, drop := SkipNewlines(Tail(ts)), [Dropped(Head(ts))];
    DropFollows(ts, d);
    var f := Count(drop, d);
    if f > 0 {
      if TurnsEnd(ts1, n) || StatementLoop(ts1, n + 1).None? {
        FollowsNone(ts1, ts1, f);
      } else {
        LoopFollows(ts1, n + 1, f);
      }
    }
    FollowsBoth(ts, ts1, RestBehind(ts1, n), drop, StepsBehind(ts1, n), d);
  }

  lemma {:induction false} DropFollows(ts: Stream, d: nat)
    requires d > 0
    ensures Follows(ts, SkipNewlines(Tail(ts)), [Dropped(Head(ts))], d)
  {
    var drop := [Dropped(Head(ts))];
    FollowsDrop(ts, d);
    if Count(drop, d) > 0 {
      SkipLevel(Tail(ts), Count(drop, d));
    }
    FollowsTo(ts, Tail(ts), SkipNewlines(Tail(ts)), drop, d);
  }

  lemma {:induction false} StatementFollows(ts: Stream, d: nat)
    requires d > 0 && ParseStatement(ts).Some?
    ensures Follows(ts, ParseStatement(ts).value.1, StepsOfStatement(ts), d)
    decreases |ts|, 4
  {
    if Head(ts) == Lexing.If {
      GroupFollows(ts, true, d);
    } else {
      SimpleLevel(ts, d);
      FollowsNone(ts, ParseStatement(ts).value.1, d);
    }
  }

  lemma {:induction false} GroupFollows(ts: Stream, start: bool, d: nat)
    requires d > 0 && ParseGroup(ts, start).Some?
    ensures Follows(ts, ParseGroup(ts, start).value.1, StepsOfGroup(ts, start), d)
    decreases |ts|, 3
  {
    var ts0, end := SkipNewlines(ts), ParseGroup(ts, start).value.1;
    var ts1 := ParseBranch(ts0, start).value.1;
    var more := Ahead(ts1) == Lexing.Elif || Ahead(ts1) == Lexing.Else;
    var a, b := StepsOfBranch(ts0, start), if more then StepsOfGroup(ts1, false) else [];
    SkipLevel(ts, d);
    BranchFollows(ts0, start, d);
    if Count(a, d) > 0 {
      if more {
        GroupFollows(ts1, false, Count(a, d));
      } else {
        FollowsNone(ts1, ts1, Count(a, d));
      }
    }
    FollowsBoth(ts0, ts1, end, a, b, d);
    FollowsFrom(ts, ts0, end, a + b, d);
  }

  lemma {:induction false} BranchFollows(ts: Stream, start: bool, d: nat)
    requires d > 0 && ParseBranch(ts, start).Some?
    ensures Follows(ts, ParseBranch(ts, start).value.1, StepsOfBranch(ts, start), d)
    decreases |ts|, 2
  {
    var block := BlockOf(ts, start);
    Over(ts, d);
    if Head(ts) != Lexing.Else {
      Over(Tail(ts), d);
      ExpressionLevel(Tail(Tail(ts)), d);
      Over(Grammar.ParseExpression(Tail(Tail(ts))).value.1, d);
    }
    BlockFollows(block, d);
    FollowsFrom(ts, block, Grammar.ParseBlock(block).value.1, StepsOfBlock(block), d);
  }

  lemma {:induction false} BlockFollows(ts: Stream, d: nat)
    requires d > 0 && Grammar.ParseBlock(ts).Some?
    ensures Follows(ts, Grammar.ParseBlock(ts).value.1, StepsOfBlock(ts), d)
    decreases |ts|, 1
  {
    var ts0, end, rest := SkipNewlines(ts), EndOf(ts), Grammar.ParseBlock(ts).value.1;
    var body := StepsOfBody(ts);
    SkipLevel(ts, d);
    FollowsStep(ts0, Opened, d);
    CountOne(Opened, d);
    BodyFollows(ts, d + 1);
    var e := Count(body, d + 1);
    if e > 0 {
      FollowsStep(end, Closed, e);
    }
    FollowsBoth(Tail(ts0), end, rest, body, [Closed], d + 1);
    FollowsBoth(ts0, Tail(ts0), rest, [Opened], body + [Closed], d);
    FollowsFrom(ts, ts0, rest, StepsOfBlock(ts), d);
  }

  // From behind the opening brace to the closing one.
  lemma {:induction false} BodyFollows(ts: Stream, d: nat)
    requires d > 0 && Grammar.ParseBlock(ts).Some?
    ensures Follows(Tail(SkipNewlines(ts)), EndOf(ts), StepsOfBody(ts), d)
    decreases |ts|, 0
  {
    var start, inner, end := Tail(SkipNewlines(ts)), InnerOf(ts), EndOf(ts);
    var ts1 := Grammar.ParseStatements(inner).value.1;
    var ts2, steps := Grammar.ParseReturn(ts1).value.1, StepsOfBody(ts);
    SkipLevel(start, d);
    StatementsFollow(inner, d);
    var e := Count(steps, d);
    if e > 0 {
      ReturnLevel(ts1, e);
      SkipLevel(ts2, e);
    }
    FollowsTo(inner, ts1, end, steps, d);
    FollowsFrom(start, inner, end, steps, d);
  }

  // ----- when the passes agree -----

  // The first pass stands on the brace that the second one closes the body with.
  ghost predicate Agree(ts: Stream)
    requires Grammar.ParseBlock(ts).Some?
  {
    SkipBody(ts).Some? && Tail(SkipBody(ts).value) == Grammar.ParseBlock(ts).value.1
  }

  // How many tokens the second pass reads between the braces of a body.
  function BodyLength(ts: Stream): int
    requires Grammar.ParseBlock(ts).Some?
  {
    |Tail(SkipNewlines(ts))| - |EndOf(ts)|
  }

  // On every token stream that holds a body: the passes agree exactly when the
  // count, led through the blocks and the dropped tokens, is back at one where
  // the body ends, without having been at zero, and the first pass has turns
  // enough to get there.
  lemma {:induction false} PassesAgreeExactly(ts: Stream)
    requires Grammar.ParseBlock(ts).Some?
    ensures Agree(ts) <==> Count(StepsOfBody(ts), 1) == 1 && BodyLength(ts) <= LOOP_LIMIT + 1
    ensures Agree(ts) ==> SkipBody(ts) == Some(EndOf(ts))
  {
    var start, end := Tail(SkipNewlines(ts)), EndOf(ts);
    var e := Count(StepsOfBody(ts), 1);
    BodyFollows(ts, 1);
    SkipIsClosing(start, 1, 0);
    assert SkipBody(ts) == SkipBraces(start, 1, 0);
    if e == 1 {
      assert Closing(end, 1) == Some(end);
    } else if e > 1 {
      assert Closing(end, e) == Closing(Tail(end), e - 1);
    }
  }

  // ----- in terms of what is dropped -----

  // The dropped braces, opening ones against closing ones.
  function Balance(steps: seq<Step>): int
    decreases |steps|
  {
    if steps == [] then 0 else Weight(steps[0]) + Balance(steps[1..])
  }

  function Weight(s: Step): int {
    match s
    case Dropped(LeftCurlyBrace) => 1
    case Dropped(RightCurlyBrace) => -1
    case _ => 0
  }

  predicate Clean(steps: seq<Step>) { forall s :: s in steps && s.Dropped? ==> !IsBrace(s.token) }

  lemma {:induction false} BalanceAppend(a: seq<Step>, b: seq<Step>)
    ensures Balance(a + b) == Balance(a) + Balance(b) && (Clean(a + b) <==> Clean(a) && Clean(b))
    decreases |a|
  {
    if a == [] {
      assert a + b == b;
    } else {
      assert (a + b)[1..] == a[1..] + b;
      BalanceAppend(a[1..], b);
    }
    CleanAppend(a, b);
  }

  lemma {:induction false} CleanAppend(a: seq<Step>, b: seq<Step>)
    ensures Clean(a + b) <==> Clean(a) && Clean(b)
  {
    assert forall s :: s in a + b <==> s in a || s in b;
  }

  // The braces of the blocks cancel out: only dropped ones move the count, and
  // clean steps never bring it below where it was.
  ghost predicate Nests(steps: seq<Step>, d: nat)
    requires d > 0
  {
    && (Count(steps, d) > 0 ==> Count(steps, d) == d + Balance(steps))
    && (Clean(steps) ==> Count(steps, d) == d)
  }

  lemma {:induction false} NestsBoth(a: seq<Step>, b: seq<Step>, d: nat)
    requires d > 0 && Nests(a, d) && (Count(a, d) > 0 ==> Nests(b, Count(a, d)))
    ensures Nests(a + b, d)
  {
    CountAppend(a, b, d);
    BalanceAppend(a, b);
  }

  lemma {:induction false} NestsDrop(t: Kind, d: nat)
    requires d > 0
    ensures Nests([Dropped(t)], d)
  {
    var s := Dropped(t);
    CountOne(s, d);
    assert [s][1..] == [] && s in [s];
  }

  lemma {:induction false} StatementsNest(ts: Stream, d: nat)
    requires d > 0 && Grammar.ParseStatements(ts).Some?
    ensures Nests(StepsOfStatements(ts), d)
    decreases |ts|, 6
  {
    if !EndsStatements(Head(ts)) {
      LoopNests(SkipNewlines(ts), 0, d);
    }
  }

  lemma {:induction false} LoopNests(ts: Stream, n: nat, d: nat)
    requires d > 0 && StatementLoop(ts, n).Some?
    ensures Nests(StepsOfLoop(ts, n), d)
    decreases |ts|, 5
  {
    LoopParts(ts, n);
    var ts1 := ParseStatement(ts).value.1;
    var a, e := StepsOfStatement(ts), Count(StepsOfStatement(ts), d);
    StatementNests(ts, d);
    if e > 0 {
      BehindNests(ts1, n, e);
    }
    NestsBoth(a, [Dropped(Head(ts1))] + StepsBehind(SkipNewlines(Tail(ts1)), n), d);
  }

  lemma {:induction false} BehindNests(ts: Stream, n: nat, d: nat)
    requires d > 0
    ensures Nests([Dropped(Head(ts))] + StepsBehind(SkipNewlines(Tail(ts)), n), d)
    decreases |ts|, 7
  {
    var ts1, drop := SkipNewlines(Tail(ts)), [Dropped(Head(ts))];
    NestsDrop(Head(ts), d);
    if Count(drop, d) > 0 && !TurnsEnd(ts1, n) && StatementLoop(ts1, n + 1).Some? {
      LoopNests(ts1, n + 1, Count(drop, d));
    }
    NestsBoth(drop, StepsBehind(ts1, n), d);
  }

  lemma {:induction false} StatementNests(ts: Stream, d: nat)
    requires d > 0 && ParseStatement(ts).Some?
    ensures Nests(StepsOfStatement(ts), d)
    decreases |ts|, 4
  {
    if Head(ts) == Lexing.If {
      GroupNests(ts, true, d);
    }
  }

  lemma {:induction false} GroupNests(ts: Stream, start: bool, d: nat)
    requires d > 0 && ParseGroup(ts, start).Some?
    ensures Nests(StepsOfGroup(ts, start), d)
    decreases |ts|, 3
  {
    var ts0 := SkipNewlines(ts);
    var ts1 := ParseBranch(ts0, start).value.1;
    var more := Ahead(ts1) == Lexing.Elif || Ahead(ts1) == Lexing.Else;
    var a, b := StepsOfBranch(ts0, start), if more then StepsOfGroup(ts1, false) else [];
    BlockNests(BlockOf(ts0, start), d);
    if Count(a, d) > 0 && more {
      GroupNests(ts1, false, Count(a, d));
    }
    NestsBoth(a, b, d);
  }

  lemma {:induction false} BlockNests(ts: Stream, d: nat)
    requires d > 0 && Grammar.ParseBlock(ts).Some?
    ensures Nests(StepsOfBlock(ts), d)
    decreases |ts|, 1
  {
    StatementsNest(InnerOf(ts), d + 1);
    Enclosed(StepsOfBody(ts), d);
  }

  lemma {:induction false} Enclosed(body: seq<Step>, d: nat)
    requires d > 0 && Nests(body, d + 1)
    ensures Nests([Opened] + (body + [Closed]), d)
  {
    CountOne(Opened, d);
    CountAppend([Opened], body + [Closed], d);
    CountAppend(body, [Closed], d + 1);
    if Count(body, d + 1) > 0 {
      CountOne(Closed, Count(body, d + 1));
    }
    assert [Opened][1..] == [] && [Closed][1..] == [];
    BalanceAppend([Opened], body + [Closed]);
    BalanceAppend(body, [Closed]);
  }

  // A body that drops no brace is skipped to its end, within the limit.
  lemma {:induction false} CleanAgrees(ts: Stream)
    requires Grammar.ParseBlock(ts).Some? && Clean(StepsOfBody(ts)) && BodyLength(ts) <= LOOP_LIMIT + 1
    ensures Agree(ts) && SkipBody(ts) == Some(EndOf(ts))
  {
    StatementsNest(InnerOf(ts), 1);
    PassesAgreeExactly(ts);
  }

  // If the dropped braces do not cancel out, the passes part.
  lemma {:induction false} UnbalancedParts(ts: Stream)
    requires Grammar.ParseBlock(ts).Some? && Balance(StepsOfBody(ts)) != 0
    ensures !Agree(ts)
  {
    StatementsNest(InnerOf(ts), 1);
    PassesAgreeExactly(ts);
  }

  // On every definition that the first pass accepts, without a word on lengths:
  // it has found the end of the body.
  lemma {:induction false} DefinitionsAgreeExactly(v: Variable, ts: Stream)
    requires ParseFunction(v, ts).Some? && ParseFunction(v, ts).value.0.start.Some?
    requires Grammar.ParseBlock(ParseFunction(v, ts).value.0.start.value).Some?
    ensures var (top, rest) := ParseFunction(v, ts).value; var start := top.start.value;
            Tail(rest) == Grammar.ParseBlock(start).value.1 <==> Count(StepsOfBody(start), 1) == 1
  {
    var (top, rest) := ParseFunction(v, ts).value;
    var start := top.start.value;
    assert SkipBody(start) == Some(rest);
    PassesAgreeExactly(start);
    SkipIsClosing(Tail(SkipNewlines(start)), 1, 0);
    BodyFollows(start, 1);
  }
}
