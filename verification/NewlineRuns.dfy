/**
  The parser cannot tell one newline from several: a stream of tokens in which
  every run of newlines is shrunk to one is parsed to the same unit.
 */
module NewlineRuns {
  import opened Wrappers
  import opened Ast
  import Lexing
  import Analysis
  import Items
  import opened Grammar
  import opened Printer
  import opened RoundTrip

  function Squeeze(ts: Stream): (r: Stream)
    ensures |r| <= |ts| && (ts != [] ==> r != [])
  {
    if ts == [] then []
    else if Head(ts) == Lexing.Newline && Head(ts[1..]) == Lexing.Newline then Squeeze(ts[1..])
    else [ts[0]] + Squeeze(ts[1..])
  }

  function Strip(ts: Stream): (r: Stream)
    ensures |r| <= |ts| && Head(r) != Lexing.Newline && (Head(ts) != Lexing.Newline ==> r == ts)
    decreases |ts|
  {
    if Head(ts) == Lexing.Newline then Strip(Tail(ts)) else ts
  }

  // The current token is kept; behind it, too, unless it is a newline.
  lemma {:induction false} Current(ts: Stream)
    ensures Head(Squeeze(ts)) == Head(ts)
    ensures Head(ts) != Lexing.Newline ==> Value(Squeeze(ts)) == Value(ts) && Tail(Squeeze(ts)) == Squeeze(Tail(ts))
    ensures Head(ts) == Lexing.Newline ==> Tail(Squeeze(ts)) == Squeeze(Strip(ts))
    decreases |ts|
  {
    if ts != [] {
      Current(ts[1..]);
    }
  }

  lemma {:induction false} StripSqueezed(ts: Stream)
    ensures Strip(Squeeze(ts)) == Squeeze(Strip(ts))
  {
    Current(ts);
    if Head(ts) == Lexing.Newline {
      Current(Strip(ts));
      assert Strip(Squeeze(ts)) == Strip(Tail(Squeeze(ts)));
    }
  }

  lemma {:induction false} SkipLoopStrips(ts: Stream, n: nat)
    requires n + |ts| <= 1_000_000
    ensures SkipLoop(ts, n) == Strip(Tail(ts))
    decreases |ts|
  {
    if Head(Tail(ts)) == Lexing.Newline {
      SkipLoopStrips(Tail(ts), n + 1);
    }
  }

  lemma {:induction false} SkipStrips(ts: Stream)
    requires |ts| <= 1_000_000
    ensures SkipNewlines(ts) == Strip(ts)
  {
    if Head(ts) == Lexing.Newline {
      SkipLoopStrips(ts, 0);
    }
  }

  // Skipping newlines ends at the same token.
  lemma {:induction false} Skips(ts: Stream)
    requires |ts| <= 1_000_000
    ensures SkipNewlines(Squeeze(ts)) == Squeeze(SkipNewlines(ts)) && Head(SkipNewlines(ts)) != Lexing.Newline
    ensures SkipNewlines(Tail(Squeeze(ts))) == Squeeze(SkipNewlines(Tail(ts)))
  {
    SkipStrips(ts);
    SkipStrips(Tail(ts));
    SkipStrips(Squeeze(ts));
    SkipStrips(Tail(Squeeze(ts)));
    StripSqueezed(ts);
    StripSqueezed(Tail(ts));
    Current(ts);
    if Head(ts) == Lexing.Newline {
      StripSqueezed(Strip(ts));
    }
  }

  lemma {:induction false} FirstIsStripped(ts: Stream)
    ensures Lexing.FirstNotNewline(ts).typ == Head(Strip(ts))
    decreases |ts|
  {
    if Head(ts) == Lexing.Newline {
      FirstIsStripped(Tail(ts));
    }
  }

  lemma {:induction false} AheadSame(ts: Stream)
    ensures Ahead(Squeeze(ts)) == Ahead(ts)
  {
    FirstIsStripped(Tail(ts));
    FirstIsStripped(Tail(Squeeze(ts)));
    Current(ts);
    StripSqueezed(Tail(ts));
    Current(Strip(Tail(ts)));
    if Head(ts) == Lexing.Newline {
      StripSqueezed(Strip(ts));
    }
  }

  function Squeezed<T>(r: Option<(T, Stream)>): Option<(T, Stream)> {
    if r.None? then None else Some((r.value.0, Squeeze(r.value.1)))
  }

  // ----- expressions -----

  lemma {:induction false} PrefixSame(ts: Stream, step: int, afterAmp: bool, n: nat)
    ensures PrefixLoop(Squeeze(ts), step, afterAmp, n) == Squeezed(PrefixLoop(ts, step, afterAmp, n))
    decreases |ts|, 1
  {
    hide Squeeze;
    Current(ts);
    if Head(ts) == Lexing.Ampersand {
      NextSame(Tail(ts), step + 1, true, n);
    } else if Head(ts) == Lexing.Star {
      NextSame(Tail(ts), step - 1, false, n);
    }
  }

  lemma {:induction false} NextSame(ts: Stream, step: int, afterAmp: bool, n: nat)
    ensures PrefixNext(Squeeze(ts), step, afterAmp, n) == Squeezed(PrefixNext(ts, step, afterAmp, n))
    decreases |ts|, 2
  {
    hide Squeeze;
    if n < LOOP_LIMIT {
      PrefixSame(ts, step, afterAmp, n + 1);
    }
  }

  lemma {:induction false} OperandSame(ts: Stream)
    ensures ParseOperand(Squeeze(ts)) == Squeezed(ParseOperand(ts))
    decreases |ts|, 0
  {
    hide Squeeze, PrefixLoop, ParseCall;
    PrefixSame(ts, 0, false, 0);
    var p := PrefixLoop(ts, 0, false, 0);
    if p.Some? {
      var ts1 := p.value.1;
      Current(ts1);
      Current(Tail(ts1));
      if Head(ts1) == Lexing.Identifier && Head(Tail(ts1)) == Lexing.LeftParenthesis {
        CallSame(Value(ts1), Tail(ts1));
      }
    }
  }

  lemma {:induction false} UnitSame(ts: Stream, first: bool)
    ensures ParseUnit(Squeeze(ts), first) == Squeezed(ParseUnit(ts, first))
    decreases |ts|, 1
  {
    hide Squeeze, ParseOperand;
    Current(ts);
    if first {
      OperandSame(ts);
    } else if OperatorOf(Head(ts)).Some? {
      OperandSame(Tail(ts));
    }
  }

  lemma {:induction false} UnitsSame(ts: Stream, first: bool, n: nat)
    ensures ParseUnits(Squeeze(ts), first, n) == Squeezed(ParseUnits(ts, first, n))
    decreases |ts|, 2
  {
    hide Squeeze, ParseUnit;
    UnitSame(ts, first);
    var u := ParseUnit(ts, first);
    if u.Some? {
      Current(u.value.1);
      UnitsSame(u.value.1, false, n + 1);
    }
  }

  lemma {:induction false} ExpressionSame(ts: Stream)
    ensures ParseExpression(Squeeze(ts)) == Squeezed(ParseExpression(ts))
    decreases |ts|, 3
  {
    hide Squeeze, ParseUnits;
    UnitsSame(ts, true, 0);
  }

  lemma {:induction false} ArgumentsSame(ts: Stream, n: nat)
    ensures ParseArguments(Squeeze(ts), n) == Squeezed(ParseArguments(ts, n))
    decreases |ts|, 4
  {
    hide Squeeze, ParseExpression;
    ExpressionSame(ts);
    var e := ParseExpression(ts);
    if e.Some? {
      Current(e.value.1);
      if Head(e.value.1) == Lexing.Comma {
        ArgumentsSame(Tail(e.value.1), n + 1);
      }
    }
  }

  lemma {:induction false} CallSame(name: string, ts: Stream)
    ensures ParseCall(name, Squeeze(ts)) == Squeezed(ParseCall(name, ts))
    decreases |ts|, 0
  {
    hide Squeeze, ParseArguments;
    Current(ts);
    if Head(ts) == Lexing.LeftParenthesis {
      var inner := Tail(ts);
      Current(inner);
      if Head(inner) != Lexing.RightParenthesis {
        ArgumentsSame(inner, 0);
        var es := ParseArguments(inner, 0);
        if es.Some? {
          Current(es.value.1);
        }
      }
    }
  }

  // ----- declarations and simple statements -----

  lemma {:induction false} DepthSame(ts: Stream, depth: nat)
    requires Head(ts) == Lexing.Ampersand
    ensures var r := DepthLoop(ts, depth); DepthLoop(Squeeze(ts), depth) == (r.0, Squeeze(r.1))
    decreases |ts|
  {
    hide Squeeze;
    Current(ts);
    Current(Tail(ts));
    if Head(Tail(ts)) == Lexing.Ampersand && depth + 1 < LOOP_LIMIT {
      DepthSame(Tail(ts), depth + 1);
    }
  }

  lemma {:induction false} TypeSame(ts: Stream)
    ensures ParseType(Squeeze(ts)) == Squeezed(ParseType(ts))
  {
    hide Squeeze, DepthLoop;
    Current(ts);
    Current(Tail(ts));
    if DataTypeOf(Head(ts)).Some? && Head(Tail(ts)) == Lexing.Ampersand {
      DepthSame(Tail(ts), 1);
    }
  }

  lemma {:induction false} VariableSame(ts: Stream)
    ensures ParseVariable(Squeeze(ts)) == Squeezed(ParseVariable(ts))
  {
    hide Squeeze, ParseType;
    TypeSame(ts);
    var t := ParseType(ts);
    if t.Some? {
      Current(t.value.1);
    }
  }

  lemma {:induction false} AssignedSame(ts: Stream)
    ensures ParseAssigned(Squeeze(ts)) == Squeezed(ParseAssigned(ts))
  {
    hide Squeeze, ParseExpression;
    Current(ts);
    if Head(ts) == Lexing.Equal {
      ExpressionSame(Tail(ts));
      var e := ParseExpression(Tail(ts));
      if e.Some? {
        Current(e.value.1);
      }
    }
  }

  lemma {:induction false} CallOrAssignmentSame(ts: Stream, stars: nat)
    ensures ParseCallOrAssignment(Squeeze(ts), stars) == Squeezed(ParseCallOrAssignment(ts, stars))
  {
    hide Squeeze, ParseAssigned, ParseCall;
    Current(ts);
    if Head(ts) == Lexing.Identifier {
      Current(Tail(ts));
      AssignedSame(Tail(ts));
      CallSame(Value(ts), Tail(ts));
    }
  }

  lemma {:induction false} StarsSame(ts: Stream, stars: nat, n: nat)
    ensures var r := StarLoop(ts, stars, n); StarLoop(Squeeze(ts), stars, n) == (r.0, Squeeze(r.1))
    decreases |ts|
  {
    hide Squeeze;
    Current(ts);
    if Head(ts) == Lexing.Star && n < LOOP_LIMIT {
      StarsSame(Tail(ts), stars + 1, n + 1);
    }
  }

  lemma {:induction false} DeclarationSame(ts: Stream)
    ensures ParseDeclaration(Squeeze(ts)) == Squeezed(ParseDeclaration(ts))
  {
    hide Squeeze, ParseVariable, ParseAssigned;
    VariableSame(ts);
    var v := ParseVariable(ts);
    if v.Some? {
      Current(v.value.1);
      AssignedSame(v.value.1);
    }
  }

  // ----- blocks -----

  lemma {:induction false} StatementsSame(ts: Stream)
    requires |ts| <= 1_000_000
    ensures ParseStatements(Squeeze(ts)) == Squeezed(ParseStatements(ts))
    decreases |ts|, 6
  {
    hide Squeeze, StatementLoop, SkipNewlines;
    Current(ts);
    Skips(ts);
    if !EndsStatements(Head(ts)) {
      LoopSame(SkipNewlines(ts), 0);
    }
  }

  lemma {:induction false} LoopSame(ts: Stream, n: nat)
    requires |ts| <= 1_000_000
    ensures StatementLoop(Squeeze(ts), n) == Squeezed(StatementLoop(ts, n))
    decreases |ts|, 5
  {
    hide Squeeze, ParseStatement, SkipNewlines;
    StatementSame(ts);
    var s := ParseStatement(ts);
    if s.Some? {
      Skips(s.value.1);
      var ts2 := SkipNewlines(Tail(s.value.1));
      Current(ts2);
      if !EndsStatements(Head(ts2)) && n < LOOP_LIMIT {
        LoopSame(ts2, n + 1);
      }
    }
  }

  lemma {:induction false} StatementSame(ts: Stream)
    requires |ts| <= 1_000_000
    ensures ParseStatement(Squeeze(ts)) == Squeezed(ParseStatement(ts))
    decreases |ts|, 4
  {
    hide Squeeze, StarLoop, ParseCallOrAssignment, ParseGroup, ParseDeclaration;
    Current(ts);
    if Head(ts) == Lexing.Star {
      StarsSame(ts, 0, 0);
      var (stars, ts1) := StarLoop(ts, 0, 0);
      CallOrAssignmentSame(ts1, stars);
    } else if Head(ts) == Lexing.If {
      GroupSame(ts, true);
    } else if Head(ts) == Lexing.Identifier {
      CallOrAssignmentSame(ts, 0);
    } else {
      DeclarationSame(ts);
    }
  }

  lemma {:induction false} GroupSame(ts: Stream, start: bool)
    requires |ts| <= 1_000_000
    ensures ParseGroup(Squeeze(ts), start) == Squeezed(ParseGroup(ts, start))
    decreases |ts|, 3
  {
    hide Squeeze, ParseBranch, SkipNewlines, Ahead;
    Skips(ts);
    BranchSame(SkipNewlines(ts), start);
    var b := ParseBranch(SkipNewlines(ts), start);
    if b.Some? {
      AheadSame(b.value.1);
      GroupSame(b.value.1, false);
    }
  }

  lemma {:induction false} BranchSame(ts: Stream, start: bool)
    requires |ts| <= 1_000_000
    ensures ParseBranch(Squeeze(ts), start) == Squeezed(ParseBranch(ts, start))
    decreases |ts|, 2
  {
    hide Squeeze, ParseBlock, ParseExpression;
    Current(ts);
    if Head(ts) == Lexing.Else {
      BlockSame(Tail(ts));
    } else if Head(ts) == Lexing.If || Head(ts) == Lexing.Elif {
      Current(Tail(ts));
      if Head(Tail(ts)) == Lexing.LeftParenthesis {
        ExpressionSame(Tail(Tail(ts)));
        var e := ParseExpression(Tail(Tail(ts)));
        if e.Some? {
          Current(e.value.1);
          BlockSame(Tail(e.value.1));
        }
      }
    }
  }

  lemma {:induction false} ReturnSame(ts: Stream)
    ensures ParseReturn(Squeeze(ts)) == Squeezed(ParseReturn(ts))
  {
    hide Squeeze, ParseExpression;
    Current(ts);
    if Head(ts) == Lexing.Return {
      ExpressionSame(Tail(ts));
    }
  }

  // A block, with newlines in front of it, behind its brace, between and
  // behind its statements, and around its branches.
  lemma {:induction false} BlockSame(ts: Stream)
    requires |ts| <= 1_000_000
    ensures ParseBlock(Squeeze(ts)) == Squeezed(ParseBlock(ts))
    decreases |ts|, 1
  {
    hide Squeeze, ParseStatements, ParseReturn, SkipNewlines;
    Skips(ts);
    var ts0 := SkipNewlines(ts);
    Current(ts0);
    if Head(ts0) == Lexing.LeftCurlyBrace {
      Skips(Tail(ts0));
      StatementsSame(SkipNewlines(Tail(ts0)));
      var ss := ParseStatements(SkipNewlines(Tail(ts0)));
      if ss.Some? {
        ReturnSame(ss.value.1);
        var e := ParseReturn(ss.value.1);
        if e.Some? {
          Skips(e.value.1);
          Current(SkipNewlines(e.value.1));
        }
      }
    }
  }

  // ----- items -----

  function SqueezedStream(r: Option<Stream>): Option<Stream> { if r.None? then None else Some(Squeeze(r.value)) }

  // Within the limit of turns it does not matter how many there were.
  lemma {:induction false} BracesSame(ts: Stream, depth: nat, n: nat, m: nat)
    requires depth > 0 && n + |ts| <= 1_000_000 && m + |ts| <= 1_000_000
    ensures SkipBraces(Squeeze(ts), depth, m) == SqueezedStream(SkipBraces(ts, depth, n))
    decreases |ts|
  {
    hide SkipBraces;
    BraceTurn(ts, depth, n);
    if Head(ts) == Lexing.Newline && Head(Tail(ts)) == Lexing.Newline {
      BracesSame(Tail(ts), depth, n + 1, m);
    } else {
      BraceTurn(Squeeze(ts), depth, m);
      var d := Deeper(Head(ts), depth);
      if ts != [] && d > 0 {
        assert Squeeze(ts) == [ts[0]] + Squeeze(Tail(ts));
        BracesSame(Tail(ts), d, n + 1, m + 1);
      }
    }
  }

  lemma {:induction false} BraceTurn(ts: Stream, depth: nat, n: nat)
    requires depth > 0 && n + |ts| <= 1_000_000
    ensures var d := Deeper(Head(ts), depth);
            SkipBraces(ts, depth, n) == if d == 0 then Some(ts) else if ts == [] then None else SkipBraces(Tail(ts), d, n + 1)
  {}

  lemma {:induction false} SkipBodySame(ts: Stream)
    requires |ts| <= 1_000_000
    ensures SkipBody(Squeeze(ts)) == SqueezedStream(SkipBody(ts))
  {
    hide Squeeze, SkipBraces, SkipNewlines;
    Current(ts);
    Skips(ts);
    var ts0 := SkipNewlines(ts);
    Current(ts0);
    if Head(ts) == Lexing.LeftCurlyBrace {
      BracesSame(Tail(ts), 1, 0, 0);
    } else if Head(ts0) == Lexing.LeftCurlyBrace {
      BracesSame(Tail(ts0), 1, 0, 0);
    }
  }

  lemma {:induction false} DirectiveSame(ts: Stream)
    ensures var r := ParseDirective(ts); ParseDirective(Squeeze(ts)) == (r.0, Squeeze(r.1))
  {
    hide Squeeze;
    Current(ts);
    Current(Tail(ts));
  }

  lemma {:induction false} ParametersSame(ts: Stream, n: nat)
    ensures ParseParameters(Squeeze(ts), n) == Squeezed(ParseParameters(ts, n))
    decreases |ts|
  {
    hide Squeeze, ParseVariable;
    VariableSame(ts);
    var v := ParseVariable(ts);
    if v.Some? {
      Current(v.value.1);
      if Head(v.value.1) == Lexing.Comma {
        ParametersSame(Tail(v.value.1), n + 1);
      }
    }
  }

  function SqueezedTop(top: Top): Top {
    match top
    case GlobalTop(_, _) => top
    case FunctionTop(name, signature, start) => FunctionTop(name, signature, SqueezedStream(start))
  }

  function SqueezedItem(r: Option<(Top, Stream)>): Option<(Top, Stream)> {
    if r.None? then None else Some((SqueezedTop(r.value.0), Squeeze(r.value.1)))
  }

  // What follows the parameters.
  lemma {:induction false} HeaderSame(v: Variable, ts: Stream)
    requires |ts| <= 1_000_000
    ensures ParseFunction(v, Squeeze(ts)) == SqueezedItem(ParseFunction(v, ts))
  {
    hide Squeeze, ParseParameters, ParseDirective, SkipBody, Ahead;
    Current(ts);
    ParametersSame(ts, 0);
    var r := if Head(ts) == Lexing.RightParenthesis then Some(([], ts)) else ParseParameters(ts, 0);
    if r.Some? {
      var ts1 := r.value.1;
      Current(ts1);
      if Head(ts1) == Lexing.RightParenthesis {
        var ts2 := ParseDirective(Tail(ts1)).1;
        DirectiveSame(Tail(ts1));
        Current(ts2);
        AheadSame(ts2);
        SkipBodySame(ts2);
      }
    }
  }

  lemma {:induction false} ConstantSame(ts: Stream)
    ensures ParseConstant(Squeeze(ts)) == Squeezed(ParseConstant(ts))
  {
    hide Squeeze;
    Current(ts);
    Current(Tail(ts));
  }

  lemma {:induction false} GlobalSame(v: Variable, ts: Stream)
    ensures ParseGlobal(v, Squeeze(ts)) == SqueezedItem(ParseGlobal(v, ts))
  {
    hide Squeeze, ParseConstant;
    Current(ts);
    if Head(ts) == Lexing.Equal {
      ConstantSame(Tail(ts));
    }
    var c := ParseInitial(ts);
    if c.Some? {
      Current(c.value.1);
    }
  }

  lemma {:induction false} TopSame(ts: Stream)
    requires |ts| <= 1_000_000
    ensures ParseTop(Squeeze(ts)) == SqueezedItem(ParseTop(ts))
  {
    hide Squeeze, ParseVariable, ParseFunction, ParseGlobal;
    VariableSame(ts);
    var v := ParseVariable(ts);
    if v.Some? {
      Current(v.value.1);
      if Head(v.value.1) == Lexing.LeftParenthesis {
        HeaderSame(v.value.0, Tail(v.value.1));
      } else {
        GlobalSame(v.value.0, v.value.1);
      }
    }
  }

  function SqueezedTops(tops: seq<Top>): (r: seq<Top>)
    ensures |r| == |tops| && forall i :: 0 <= i < |r| ==> r[i] == SqueezedTop(tops[i])
  {
    seq(|tops|, i requires 0 <= i < |tops| => SqueezedTop(tops[i]))
  }

  function SqueezedAll(r: Option<seq<Top>>): Option<seq<Top>> { if r.None? then None else Some(SqueezedTops(r.value)) }

  lemma {:induction false} OneSeparator(ts: Stream, n: nat)
    requires Head(ts) == Lexing.Newline && n < 1_000_000
    ensures TopLoop(ts, n) == TopLoop(Tail(ts), n + 1)
  {}

  // The loop over the items, started at the same token up to newlines.
  lemma {:induction false} ItemsSame(ts: Stream, us: Stream, n: nat, m: nat)
    requires Strip(us) == Squeeze(Strip(ts)) && n + |ts| <= 1_000_000 && m + |us| <= 1_000_000
    ensures TopLoop(us, m) == SqueezedAll(TopLoop(ts, n))
    decreases |ts| + |us|
  {
    hide Squeeze, ParseTop, ParseDirective;
    if Head(ts) == Lexing.Newline {
      OneSeparator(ts, n);
      ItemsSame(Tail(ts), us, n + 1, m);
    } else if Head(us) == Lexing.Newline {
      OneSeparator(us, m);
      ItemsSame(ts, Tail(us), n, m + 1);
    } else {
      FirstItemSame(ts, n, m);
    }
  }

  lemma {:induction false} FirstItemSame(ts: Stream, n: nat, m: nat)
    requires Head(ts) != Lexing.Newline && n + |ts| <= 1_000_000 && m + |Squeeze(ts)| <= 1_000_000
    ensures TopLoop(Squeeze(ts), m) == SqueezedAll(TopLoop(ts, n))
    decreases |ts| + |Squeeze(ts)|, 0
  {
    hide Squeeze, ParseTop, ParseDirective, Strip, TopLoop;
    Current(ts);
    TopTurn(ts, n);
    TopTurn(Squeeze(ts), m);
    if ts == [] {
      assert Squeeze(ts) == [];
    } else if DataTypeOf(Head(ts)).Some? {
      TopSame(ts);
      var top := ParseTop(ts);
      if top.Some? {
        BehindSame(top.value.1);
        ItemsSame(Tail(top.value.1), Tail(Squeeze(top.value.1)), n + 1, m + 1);
        var others := TopLoop(Tail(top.value.1), n + 1);
        if others.Some? {
          assert SqueezedTops([top.value.0] + others.value) == [SqueezedTop(top.value.0)] + SqueezedTops(others.value);
        }
      }
    } else if IsSeparator(Head(ts)) {
      DirectiveSame(ts);
      var d := ParseDirective(ts);
      if d.0 {
        BehindSame(d.1);
        ItemsSame(Tail(d.1), Tail(Squeeze(d.1)), n + 1, m + 1);
      }
    }
  }

  // One turn of the loop over the items.
  lemma {:induction false} TopTurn(ts: Stream, n: nat)
    requires n + |ts| <= 1_000_000
    ensures TopLoop(ts, n) ==
            if ts == [] then Some([])
            else if DataTypeOf(Head(ts)).Some? then
              var top := ParseTop(ts);
              if top.None? then None
              else
                var others := TopLoop(Tail(top.value.1), n + 1);
                if others.None? then None else Some([top.value.0] + others.value)
            else if !IsSeparator(Head(ts)) || !ParseDirective(ts).0 then None
            else TopLoop(Tail(ParseDirective(ts).1), n + 1)
  {
    hide ParseTop, ParseDirective;
  }

  lemma {:induction false} BehindSame(ts: Stream)
    ensures Strip(Tail(Squeeze(ts))) == Squeeze(Strip(Tail(ts)))
  {
    Current(ts);
    StripSqueezed(Tail(ts));
    if Head(ts) == Lexing.Newline {
      StripSqueezed(Strip(ts));
    }
  }

  // ----- bodies -----

  predicate Short(top: Top) { top.FunctionTop? && top.start.Some? ==> |top.start.value| <= 1_000_000 }

  lemma {:induction false} BodySame(top: Top)
    requires Short(top)
    ensures ParseBodyOf(SqueezedTop(top)) == ParseBodyOf(top)
  {
    hide Squeeze, ParseBlock;
    if top.FunctionTop? && top.start.Some? {
      BlockSame(top.start.value);
    }
  }

  lemma {:induction false} BodiesSame(tops: seq<Top>)
    requires forall top :: top in tops ==> Short(top)
    ensures ParseBodies(SqueezedTops(tops)) == ParseBodies(tops)
    decreases |tops|
  {
    hide ParseBodyOf, Short;
    if tops != [] {
      assert SqueezedTops(tops)[1..] == SqueezedTops(tops[1..]) && tops[0] in tops;
      BodySame(tops[0]);
      BodiesSame(tops[1..]);
    }
  }

  lemma {:induction false} TopShort(ts: Stream)
    requires |ts| <= 1_000_000 && ParseTop(ts).Some?
    ensures Short(ParseTop(ts).value.0)
  {
    hide ParseVariable, ParseParameters, ParseDirective, SkipBody;
  }

  lemma {:induction false} TopsShort(ts: Stream, n: nat)
    requires |ts| <= 1_000_000 && TopLoop(ts, n).Some?
    ensures forall top :: top in TopLoop(ts, n).value ==> Short(top)
    decreases |ts|
  {
    hide ParseTop, ParseDirective, Short;
    if ts != [] {
      if DataTypeOf(Head(ts)).Some? {
        TopShort(ts);
        if n < LOOP_LIMIT {
          TopsShort(Tail(ParseTop(ts).value.1), n + 1);
        }
      } else if n < LOOP_LIMIT {
        TopsShort(Tail(ParseDirective(ts).1), n + 1);
      }
    }
  }

  // A stream of at most a million tokens is parsed to the unit, or refused, as
  // it is when every run of newlines in it is a single one.
  lemma {:induction false} RunsIgnored(ts: Stream)
    requires |ts| <= 1_000_000
    ensures Parse(Squeeze(ts)) == Parse(ts)
  {
    hide Squeeze, TopLoop, ParseBodies, Short;
    StripSqueezed(ts);
    ItemsSame(ts, Squeeze(ts), 0, 0);
    var tops := TopLoop(ts, 0);
    if tops.Some? {
      TopsShort(ts, 0);
      BodiesSame(tops.value);
    }
  }

  // ----- where newlines need not be -----

  lemma {:induction false} LoopSkips(k: nat, rest: Stream, n: nat)
    requires k > 0 && Head(rest) != Lexing.Newline && n + k <= 1_000_000
    ensures SkipLoop(Repeat(Lexing.Newline, k) + rest, n) == rest
    decreases k
  {
    var more := Repeat(Lexing.Newline, k - 1) + rest;
    assert Repeat(Lexing.Newline, k) + rest == [Mark(Lexing.Newline)] + more;
    HeadOf(Mark(Lexing.Newline), more);
    if k > 1 {
      assert Head(more) == Lexing.Newline;
      LoopSkips(k - 1, rest, n + 1);
    } else {
      assert more == rest;
    }
  }

  lemma {:induction false} NewlinesSkipped(k: nat, rest: Stream)
    requires Head(rest) != Lexing.Newline && k <= 1_000_000
    ensures SkipNewlines(Repeat(Lexing.Newline, k) + rest) == rest
  {
    if k == 0 {
      assert Repeat(Lexing.Newline, 0) + rest == rest;
    } else {
      assert (Repeat(Lexing.Newline, k) + rest)[0] == Mark(Lexing.Newline);
      LoopSkips(k, rest, 0);
    }
  }

  // A block with any number of newlines in front of it, behind its opening
  // brace and, behind the value it returns, in front of its closing one.
  function PrintFreely(b: Block, front: nat, inside: nat, behind: nat): Stream {
    Repeat(Lexing.Newline, front) + [Mark(Lexing.LeftCurlyBrace)] + Repeat(Lexing.Newline, inside) + PrintStatements(b.statements)
    + PrintValue(b.returnValue) + Repeat(Lexing.Newline, behind) + [Mark(Lexing.RightCurlyBrace)]
  }

  function PrintValue(e: Option<Expression>): Stream { if e.Some? then [Mark(Lexing.Return)] + PrintExpression(e.value) else [] }

  lemma {:induction false} ValueRead(e: Option<Expression>, behind: nat, close: Stream)
    requires (e.Some? ==> PrintableExpression(e.value)) && Head(close) == Lexing.RightCurlyBrace && behind <= 1_000_000
    requires e.None? ==> behind == 0
    ensures var ts := PrintValue(e) + (Repeat(Lexing.Newline, behind) + close);
            && EndsStatements(Head(ts)) && ParseReturn(ts).Some?
            && ParseReturn(ts).value.0 == e && SkipNewlines(ParseReturn(ts).value.1) == close
  {
    var more := Repeat(Lexing.Newline, behind) + close;
    NewlinesSkipped(behind, close);
    if e.Some? {
      assert PrintValue(e) + more == [Mark(Lexing.Return)] + (PrintExpression(e.value) + more);
      HeadOf(Mark(Lexing.Return), PrintExpression(e.value) + more);
      assert Head(more) == if behind > 0 then Lexing.Newline else Lexing.RightCurlyBrace;
      ExpressionRead(e.value, more);
    } else {
      assert [] + more == more && more == close;
    }
  }

  lemma {:induction false} FreeLayoutOf(b: Block, front: nat, inside: nat, behind: nat, rest: Stream)
    ensures PrintFreely(b, front, inside, behind) + rest
            == Repeat(Lexing.Newline, front) + ([Mark(Lexing.LeftCurlyBrace)] + (Repeat(Lexing.Newline, inside) + (PrintStatements(b.statements)
               + (PrintValue(b.returnValue) + (Repeat(Lexing.Newline, behind) + ([Mark(Lexing.RightCurlyBrace)] + rest))))))
  {}

  lemma {:induction false} FreeBlockRead(b: Block, front: nat, inside: nat, behind: nat, rest: Stream)
    requires PrintableBlock(b) && front <= 1_000_000 && inside <= 1_000_000 && behind <= 1_000_000 && (b.returnValue.None? ==> behind == 0)
    ensures ParseBlock(PrintFreely(b, front, inside, behind) + rest) == Some((b, rest))
  {
    hide ParseReturn, PrintStatements, PrintValue, StatementLoop, Repeat, Head, Tail, SkipNewlines, PrintFreely;
    var close := [Mark(Lexing.RightCurlyBrace)] + rest;
    var ret := PrintValue(b.returnValue) + (Repeat(Lexing.Newline, behind) + close);
    var ss := PrintStatements(b.statements) + ret;
    var inner := Repeat(Lexing.Newline, inside) + ss;
    FreeLayoutOf(b, front, inside, behind, rest);
    HeadOf(Mark(Lexing.LeftCurlyBrace), inner);
    HeadOf(Mark(Lexing.RightCurlyBrace), rest);
    ValueRead(b.returnValue, behind, close);
    StatementsStart(b.statements, ret);
    NewlinesSkipped(front, [Mark(Lexing.LeftCurlyBrace)] + inner);
    NewlinesSkipped(inside, ss);
    if b.statements != [] {
      StatementsRead(b.statements, ret, 0);
    }
    SkipsNothing(ss);
    assert ParseStatements(ss) == Some((b.statements, ret));
  }

  lemma {:induction false} SkipsNothing(ts: Stream)
    requires Head(ts) != Lexing.Newline
    ensures SkipNewlines(ts) == ts
  {}
}
