/**
  The parser as the code runs it (lib/Parser): it advances the lexer token by
  token, keeps the bodies to parse later, and goes back for them. Each method
  reads from the tokens left what the grammar's function of the same name does.
 */
module Parser {
  import opened Wrappers
  import opened Ast
  import opened Grammar
  import Lexing
  import Prefixes
  import Items
  import Analysis
  import TwoPasses

  // A method that read `r` and left the stream at `after` did what `spec` says.
  ghost predicate Reads<T>(spec: Option<(T, Stream)>, r: Option<T>, after: Stream) {
    match spec
    case None => r == None
    case Some((t, ts)) => r == Some(t) && after == ts
  }

  // The same for what cannot fail.
  ghost predicate Gives<T>(spec: (T, Stream), r: T, after: Stream) { spec == (r, after) }

  // What was read before the rest.
  function Before<T>(xs: seq<T>, r: Option<(seq<T>, Stream)>): Option<(seq<T>, Stream)> {
    var (ys, ts) :- r;
    Some((xs + ys, ts))
  }

  lemma {:induction false} BeforeNothing<T>(r: Option<(seq<T>, Stream)>)
    ensures Before([], r) == r
  {
    if r.Some? {
      assert [] + r.value.0 == r.value.0;
    }
  }

  lemma {:induction false} BeforeBoth<T>(xs: seq<T>, ys: seq<T>, r: Option<(seq<T>, Stream)>)
    ensures Before(xs, Before(ys, r)) == Before(xs + ys, r)
  {
    if r.Some? {
      assert xs + (ys + r.value.0) == xs + ys + r.value.0;
    }
  }

  // ----- the turns of the loops -----

  // What the loop over newlines does once the next token is read.
  function AfterSkip(ts: Stream, n: nat): Stream {
    if Head(ts) != Lexing.Newline || n > LOOP_LIMIT then ts else SkipLoop(ts, n + 1)
  }

  lemma {:induction false} SkipTurn(ts: Stream, n: nat)
    ensures SkipLoop(ts, n) == AfterSkip(Tail(ts), n)
  {}

  // One turn of the loop over the operators in front of an operand.
  lemma {:induction false} PrefixTurn(ts: Stream, step: int, afterAmp: bool, n: nat)
    ensures PrefixLoop(ts, step, afterAmp, n) ==
            match Head(ts)
            case Ampersand => if afterAmp then None else PrefixNext(Tail(ts), step + 1, true, n)
            case Star => PrefixNext(Tail(ts), step - 1, false, n)
            case _ => Some((step, ts))
  {}

  // At the end of file the loop goes on until its limit.
  lemma {:induction false} BracesTurn(ts: Stream, depth: nat, n: nat)
    requires depth > 0
    ensures SkipBraces(ts, depth, n) ==
            if Deeper(Head(ts), depth) < 1 then Some(ts) else if n > LOOP_LIMIT then None else SkipBraces(Tail(ts), Deeper(Head(ts), depth), n + 1)
  {}

  // A declaration and what follows its variable.
  function WithAssignment(v: Variable, r: Option<(Expression, Stream)>): Option<(seq<Statement>, Stream)> {
    if r.None? then None else Some(([Declaration(v)] + [Assignment(v.name, 0, r.value.0)], r.value.1))
  }

  function AfterVariable(v: Variable, ts: Stream): Option<(seq<Statement>, Stream)> {
    if Head(ts) == Lexing.Equal then WithAssignment(v, ParseAssigned(ts))
    else if Head(ts) == Lexing.Newline then Some(([Declaration(v)], ts))
    else None
  }

  lemma {:induction false} DeclarationParts(ts: Stream)
    ensures ParseDeclaration(ts) == var r := ParseVariable(ts); if r.None? then None else AfterVariable(r.value.0, r.value.1)
  {
    var r := ParseVariable(ts);
    if r.Some? && ParseAssigned(r.value.1).Some? {
      var v, e := r.value.0, ParseAssigned(r.value.1).value.0;
      assert [Declaration(v)] + [Assignment(v.name, 0, e)] == [Declaration(v), Assignment(v.name, 0, e)];
    }
  }

  lemma {:induction false} UnitsTurn(ts: Stream, first: bool, n: nat, us: seq<Unit>)
    ensures Before(us, ParseUnits(ts, first, n)) ==
            var r := ParseUnit(ts, first);
            if r.None? then None
            else if !IsOperator(Head(r.value.1)) || n >= LOOP_LIMIT then Some((us + [r.value.0], r.value.1))
            else Before(us + [r.value.0], ParseUnits(r.value.1, false, n + 1))
  {
    var r := ParseUnit(ts, first);
    if r.Some? {
      BeforeBoth(us, [r.value.0], ParseUnits(r.value.1, false, n + 1));
    }
  }

  lemma {:induction false} ArgumentsTurn(ts: Stream, n: nat, es: seq<Expression>)
    ensures Before(es, ParseArguments(ts, n)) ==
            var r := ParseExpression(ts);
            if r.None? then None
            else if Head(r.value.1) == Lexing.RightParenthesis then Some((es + [r.value.0], r.value.1))
            else if Head(r.value.1) != Lexing.Comma then None
            else if n >= LOOP_LIMIT then Some((es + [r.value.0], Tail(r.value.1)))
            else Before(es + [r.value.0], ParseArguments(Tail(r.value.1), n + 1))
  {
    var r := ParseExpression(ts);
    if r.Some? {
      BeforeBoth(es, [r.value.0], ParseArguments(Tail(r.value.1), n + 1));
    }
  }

  lemma {:induction false} ParametersTurn(ts: Stream, n: nat, vs: seq<Variable>)
    ensures Before(vs, Grammar.ParseParameters(ts, n)) ==
            var r := ParseVariable(ts);
            if r.None? then None
            else if Head(r.value.1) == Lexing.RightParenthesis then Some((vs + [r.value.0], r.value.1))
            else if Head(r.value.1) != Lexing.Comma then None
            else if n >= LOOP_LIMIT then Some((vs + [r.value.0], Tail(r.value.1)))
            else Before(vs + [r.value.0], Grammar.ParseParameters(Tail(r.value.1), n + 1))
  {
    var r := ParseVariable(ts);
    if r.Some? {
      BeforeBoth(vs, [r.value.0], Grammar.ParseParameters(Tail(r.value.1), n + 1));
    }
  }

  lemma {:induction false} StatementTurn(ts: Stream, n: nat, ss: seq<Statement>)
    ensures Before(ss, StatementLoop(ts, n)) ==
            var r := ParseStatement(ts);
            if r.None? then None
            else
              var ts1 := SkipNewlines(Tail(r.value.1));
              if EndsStatements(Head(ts1)) || n >= LOOP_LIMIT then Some((ss + r.value.0, ts1))
              else Before(ss + r.value.0, StatementLoop(ts1, n + 1))
  {
    var r := ParseStatement(ts);
    if r.Some? {
      BeforeBoth(ss, r.value.0, StatementLoop(SkipNewlines(Tail(r.value.1)), n + 1));
    }
  }

  lemma {:induction false} GroupTurn(ts: Stream, start: bool, bs: seq<Branch>)
    ensures Before(bs, ParseGroup(ts, start)) ==
            var r := ParseBranch(SkipNewlines(ts), start);
            if r.None? then None
            else if Ahead(r.value.1) == Lexing.Elif || Ahead(r.value.1) == Lexing.Else
            then Before(bs + [r.value.0], ParseGroup(r.value.1, false))
            else Some((bs + [r.value.0], r.value.1))
  {
    var r := ParseBranch(SkipNewlines(ts), start);
    if r.Some? {
      BeforeBoth(bs, [r.value.0], ParseGroup(r.value.1, false));
    }
  }

  // A function behind its header: a definition or a declaration.
  function AfterHeader(name: string, signature: Signature, ts: Stream): Option<(Top, Stream)> {
    if Head(ts) == Lexing.LeftCurlyBrace || Ahead(ts) == Lexing.LeftCurlyBrace then
      if SkipBody(ts).None? then None else Some((FunctionTop(name, signature, Some(ts)), SkipBody(ts).value))
    else Some((FunctionTop(name, signature, None), ts))
  }

  lemma {:induction false} HeaderParts(v: Variable, ts: Stream)
    ensures Grammar.ParseFunction(v, ts) ==
            var r := if Head(ts) == Lexing.RightParenthesis then Some(([], ts)) else Grammar.ParseParameters(ts, 0);
            if r.None? || Head(r.value.1) != Lexing.RightParenthesis then None
            else AfterHeader(v.name, Signature(r.value.0, v.typ), Grammar.ParseDirective(Tail(r.value.1)).1)
  {
    hide Grammar.ParseParameters, Grammar.ParseDirective, SkipBody, Ahead, Shrinks;
  }

  // ----- the bodies to parse -----

  datatype FunctionBodyToParse = FunctionBodyToParse(startIndex: nat, item: nat)

  function Bare(top: Top): Analysis.Source {
    match top
    case GlobalTop(v, c) => Analysis.GlobalSource(v, c)
    case FunctionTop(name, signature, _) => Analysis.FunctionSource(name, signature, None)
  }

  predicate HasStart(top: Top) { top.FunctionTop? && top.start.Some? }

  // Going back to index j reads ts again.
  ghost predicate StartsAt(input: string, j: nat, ts: Stream) {
    && 1 <= j <= |input| && ts != [] && ts[0] != Lexing.END_OF_FILE
    && Lexing.NextToken(input, j - 1) == Some((ts[0], j)) && Lexing.Tokens(input, j) == Some(ts[1..])
  }

  ghost predicate PendingAt(input: string, tops: seq<Top>, b: FunctionBodyToParse) {
    b.item < |tops| && HasStart(tops[b.item]) && StartsAt(input, b.startIndex, tops[b.item].start.value)
  }

  // The bodies recorded are those of the items with one, in order.
  ghost predicate Recorded(input: string, tops: seq<Top>, bodies: seq<FunctionBodyToParse>) {
    && (forall i :: 0 <= i < |bodies| ==> PendingAt(input, tops, bodies[i]))
    && (forall i, j :: 0 <= i < j < |bodies| ==> bodies[i].item < bodies[j].item)
    && forall k :: 0 <= k < |tops| && HasStart(tops[k]) ==> exists i :: 0 <= i < |bodies| && bodies[i].item == k
  }

  // What an item adds to them.
  ghost predicate Pushed(input: string, top: Top, n: nat, more: seq<FunctionBodyToParse>) {
    if HasStart(top) then |more| == 1 && more[0].item == n && StartsAt(input, more[0].startIndex, top.start.value) else more == []
  }

  lemma {:induction false} PendingMore(input: string, tops: seq<Top>, top: Top, b: FunctionBodyToParse)
    requires PendingAt(input, tops, b)
    ensures PendingAt(input, tops + [top], b) && b.item < |tops|
  {}

  lemma {:induction false} FoundMore(tops: seq<Top>, bodies: seq<FunctionBodyToParse>, top: Top, more: seq<FunctionBodyToParse>, k: nat)
    requires k < |tops| + 1 && HasStart((tops + [top])[k])
    requires forall k :: 0 <= k < |tops| && HasStart(tops[k]) ==> exists i :: 0 <= i < |bodies| && bodies[i].item == k
    requires HasStart(top) ==> |more| == 1 && more[0].item == |tops|
    ensures exists i :: 0 <= i < |bodies + more| && (bodies + more)[i].item == k
  {
    hide HasStart;
    if k < |tops| {
      assert HasStart(tops[k]);
      var i :| 0 <= i < |bodies| && bodies[i].item == k;
      assert (bodies + more)[i].item == k;
    } else {
      assert (bodies + more)[|bodies|].item == k;
    }
  }

  lemma {:induction false} RecordOne(input: string, tops: seq<Top>, bodies: seq<FunctionBodyToParse>, top: Top, more: seq<FunctionBodyToParse>)
    requires Recorded(input, tops, bodies) && Pushed(input, top, |tops|, more)
    ensures Recorded(input, tops + [top], bodies + more)
  {
    hide StartsAt;
    var all, tops' := bodies + more, tops + [top];
    forall i | 0 <= i < |bodies| ensures PendingAt(input, tops', all[i]) && all[i].item < |tops| {
      PendingMore(input, tops, top, bodies[i]);
    }
    forall k | 0 <= k < |tops'| && HasStart(tops'[k]) ensures exists i :: 0 <= i < |all| && all[i].item == k {
      FoundMore(tops, bodies, top, more, k);
    }
  }

  // Every body parsed.
  lemma {:induction false} BodiesDone(tops: seq<Top>, items: seq<Analysis.Source>)
    requires |items| == |tops| && forall k :: 0 <= k < |tops| ==> ParseBodyOf(tops[k]) == Some(items[k])
    ensures ParseBodies(tops) == Some(items)
  {
    if tops != [] {
      BodiesDone(tops[1..], items[1..]);
      assert [items[0]] + items[1..] == items;
    }
  }

  lemma {:induction false} BodiesFail(tops: seq<Top>, k: nat)
    requires k < |tops| && ParseBodyOf(tops[k]) == None
    ensures ParseBodies(tops) == None
  {
    if k > 0 {
      BodiesFail(tops[1..], k - 1);
    }
  }

  // What the first pass still has to give.
  function TopsBefore(tops: seq<Top>, r: Option<seq<Top>>): Option<seq<Top>> {
    if r.None? then None else Some(tops + r.value)
  }

  lemma {:induction false} TopTurn(ts: Stream, n: nat, tops: seq<Top>)
    requires DataTypeOf(Head(ts)).Some?
    ensures TopsBefore(tops, TopLoop(ts, n)) ==
            var r := ParseTop(ts);
            if r.None? then None
            else if n >= LOOP_LIMIT then Some(tops + [r.value.0])
            else TopsBefore(tops + [r.value.0], TopLoop(Tail(r.value.1), n + 1))
  {
    var r := ParseTop(ts);
    if r.Some? && TopLoop(Tail(r.value.1), n + 1).Some? {
      var others := TopLoop(Tail(r.value.1), n + 1).value;
      assert tops + ([r.value.0] + others) == tops + [r.value.0] + others;
    }
  }

  lemma {:induction false} SeparatorTurn(ts: Stream, n: nat, tops: seq<Top>)
    requires DataTypeOf(Head(ts)).None?
    ensures TopsBefore(tops, TopLoop(ts, n)) ==
            var (ok, ts1) := Grammar.ParseDirective(ts);
            if ts == [] then Some(tops)
            else if !IsSeparator(Head(ts)) || !ok then None
            else if n >= LOOP_LIMIT then Some(tops)
            else TopsBefore(tops, TopLoop(Tail(ts1), n + 1))
  {
    assert tops + [] == tops;
  }

  function TopsAfter(ok: bool, more: bool, tops: seq<Top>, left: Stream, n: nat): Option<seq<Top>> {
    if !ok then None else if !more || n >= LOOP_LIMIT then Some(tops) else TopsBefore(tops, TopLoop(Tail(left), n + 1))
  }

  lemma {:induction false} NoTops(r: Option<seq<Top>>)
    ensures TopsBefore([], r) == r
  {
    if r.Some? {
      assert [] + r.value == r.value;
    }
  }

  // Only the end of the text is of this kind.
  lemma {:induction false} EndOfFileOnly(input: string, i: nat)
    requires i <= |input| && Lexing.NextToken(input, i).Some? && Lexing.NextToken(input, i).value.0.typ == Lexing.EndOfFile
    ensures Lexing.NextToken(input, i).value.0 == Lexing.END_OF_FILE
    decreases |input| - i
  {
    if i < |input| && !Lexing.IsNewline(input[i]) {
      if Lexing.IsSpace(input[i]) {
        EndOfFileOnly(input, i + 1);
      } else if Lexing.IsAlpha(input[i]) {
        NoEndOfFile(input[i..Lexing.RunEnd(input, i + 1, Lexing.IsAlnum)]);
      } else if input[i] == '/' {
        EndOfFileOnly(input, Lexing.CommentEnd(input, i));
      }
    }
  }

  lemma {:induction false} NoEndOfFile(word: string)
    ensures Lexing.WordToken(word).typ != Lexing.EndOfFile
  {}

  // The bodies of the items below `limit` are parsed, the others are bare.
  ghost predicate ParsedBelow(tops: seq<Top>, items: seq<Analysis.Source>, limit: nat) {
    |items| == |tops| && forall k :: 0 <= k < |tops| ==> ParsedOne(tops[k], items[k], k < limit)
  }

  ghost predicate ParsedOne(top: Top, item: Analysis.Source, done: bool) {
    if done then ParseBodyOf(top) == Some(item) else item == Bare(top)
  }

  // No item between two recorded bodies has one.
  lemma {:induction false} Gap(input: string, tops: seq<Top>, bodies: seq<FunctionBodyToParse>, i: nat, k: nat)
    requires Recorded(input, tops, bodies) && i <= |bodies| && k < |tops|
    requires (i > 0 ==> bodies[i - 1].item < k) && (i < |bodies| ==> k < bodies[i].item)
    ensures !HasStart(tops[k]) && ParseBodyOf(tops[k]) == Some(Bare(tops[k]))
  {
    hide PendingAt, ParseBlock, Shrinks;
    if HasStart(tops[k]) {
      assert false;
    }
  }

  // The items below this one are dealt with after i bodies.
  function Limit(bodies: seq<FunctionBodyToParse>, i: nat): nat
    requires i <= |bodies|
  {
    if i == 0 then 0 else bodies[i - 1].item + 1
  }

  lemma {:induction false} BodyAdded(input: string, tops: seq<Top>, bodies: seq<FunctionBodyToParse>, items: seq<Analysis.Source>, i: nat, limit: nat, block: Block)
    requires Recorded(input, tops, bodies) && i < |bodies| && limit == Limit(bodies, i) && ParsedBelow(tops, items, limit)
    requires var k := bodies[i].item;
             && k < |tops| && HasStart(tops[k]) && items[k].FunctionSource?
             && ParseBodyOf(tops[k]) == Some(items[k].(body := Some(block)))
    ensures var k := bodies[i].item; ParsedBelow(tops, items[k := items[k].(body := Some(block))], k + 1)
  {
    var item := bodies[i].item;
    var items' := items[item := items[item].(body := Some(block))];
    forall k | 0 <= k < |tops| ensures ParsedOne(tops[k], items'[k], k < item + 1) {
      assert ParsedOne(tops[k], items[k], k < limit);
      if limit <= k < item {
        Gap(input, tops, bodies, i, k);
      }
    }
  }

  lemma {:induction false} AllAdded(input: string, tops: seq<Top>, bodies: seq<FunctionBodyToParse>, items: seq<Analysis.Source>, limit: nat)
    requires Recorded(input, tops, bodies) && limit == Limit(bodies, |bodies|) && ParsedBelow(tops, items, limit)
    ensures ParseBodies(tops) == Some(items)
  {
    forall k | 0 <= k < |tops| ensures ParseBodyOf(tops[k]) == Some(items[k]) {
      assert ParsedOne(tops[k], items[k], k < limit);
      if limit <= k {
        Gap(input, tops, bodies, |bodies|, k);
      }
    }
    BodiesDone(tops, items);
  }

  // ----- the class -----

  class Parser {
    const lexer: Lexing.Lexer
    // The items without bodies, then with them.
    var items: seq<Analysis.Source>
    var functionBodiesToParse: seq<FunctionBodyToParse>

    constructor (lexer: Lexing.Lexer)
      requires lexer.index == 0 && lexer.currentToken == Lexing.Token(Lexing.NoToken, "") && Lexing.Tokens(lexer.input, 0).Some?
      ensures this.lexer == lexer && Ready() && Tail(Left()) == Lexing.Tokens(lexer.input, 0).value
      ensures items == [] && functionBodiesToParse == []
    {
      this.lexer, items, functionBodiesToParse := lexer, [], [];
    }

    // The current token was read just before the index, or nothing was read.
    ghost predicate Ready()
      reads lexer
    {
      && lexer.Closed() && (lexer.currentToken == Lexing.END_OF_FILE ==> Lexing.Tokens(lexer.input, lexer.index) == Some([]))
      && (lexer.currentToken == Lexing.Token(Lexing.NoToken, "") || CameFrom())
    }

    ghost predicate CameFrom()
      reads lexer
    {
      exists i: nat :: i <= |lexer.input| && Lexing.NextToken(lexer.input, i) == Some((lexer.currentToken, lexer.index))
    }

    // The tokens left, the current one first.
    ghost function Left(): Stream
      requires Ready()
      reads lexer
    {
      if lexer.currentToken == Lexing.END_OF_FILE then [] else [lexer.currentToken] + Lexing.Tokens(lexer.input, lexer.index).value
    }

    function Current(): (k: Kind)
      requires Ready()
      reads lexer
      ensures k == Head(Left())
    {
      lexer.currentToken.typ
    }

    function CurrentValue(): (s: string)
      requires Ready()
      reads lexer
      ensures s == Value(Left())
    {
      lexer.currentToken.value
    }

    method Eat()
      requires Ready()
      modifies lexer
      ensures Ready() && Left() == Tail(old(Left()))
    {
      ghost var ts, t := Lexing.Tokens(lexer.input, lexer.index).value, lexer.currentToken;
      assert ([t] + ts)[1..] == ts;
      assert ts != [] ==> ts[0] != Lexing.END_OF_FILE && [ts[0]] + ts[1..] == ts;
      ghost var i := lexer.index;
      var _ := lexer.GenerateNextToken();
      assert Lexing.NextToken(lexer.input, i) == Some((lexer.currentToken, lexer.index));
    }

    method LookAheadNotNewline() returns (k: Kind)
      requires Ready()
      modifies lexer`index, lexer`currentChar
      ensures Ready() && Left() == old(Left()) && lexer.index == old(lexer.index) && k == Ahead(Left())
    {
      ghost var ts, t := Lexing.Tokens(lexer.input, lexer.index).value, lexer.currentToken;
      assert ([t] + ts)[1..] == ts;
      var token := lexer.LookaheadTokenNotNewline();
      k := token.typ;
    }

    method SkipUntilNotNewline()
      requires Ready()
      modifies lexer
      ensures Ready() && Left() == SkipNewlines(old(Left()))
    {
      if Current() != Lexing.Newline {
        return;
      }
      ghost var ts, end := Left(), SkipLoop(Left(), 0);
      var loopCounter: nat, more := 0, true;
      while more
        invariant Ready() && Left() == ts
        invariant if more then ts != [] && end == SkipLoop(ts, loopCounter) else end == ts
        decreases |ts|
      {
        SkipTurn(ts, loopCounter);
        Eat();
        ts := Tail(ts);
        more := Current() == Lexing.Newline && loopCounter <= LOOP_LIMIT;
        loopCounter := loopCounter + 1;
      }
    }

    // ----- expressions -----

    method ParseIndirection() returns (r: Option<int>)
      requires Ready()
      modifies lexer
      ensures Ready() && Reads(PrefixLoop(old(Left()), 0, false, 0), r, Left())
    {
      hide PrefixLoop, Prefixes.LimitTest, Lexing.Tokens;
      ghost var ts, end := Left(), PrefixLoop(Left(), 0, false, 0);
      var indirectionStep: Prefixes.int32, afterAmpersand, more := 0, false, true;
      var loopCounter: nat := 0;
      while more
        invariant Ready() && Left() == ts
        invariant loopCounter <= LOOP_LIMIT + (if more then 0 else 1) && 0 - loopCounter <= indirectionStep as int <= loopCounter
        invariant end == if more then PrefixLoop(ts, indirectionStep as int, afterAmpersand, loopCounter) else Some((indirectionStep as int, ts))
        decreases |ts|, more
      {
        PrefixTurn(ts, indirectionStep as int, afterAmpersand, loopCounter);
        var sign := Current();
        if sign != Lexing.Ampersand && sign != Lexing.Star {
          return Some(indirectionStep as int);
        }
        if sign == Lexing.Ampersand && afterAmpersand {
          return None;
        }
        afterAmpersand := sign == Lexing.Ampersand;
        indirectionStep := if afterAmpersand then indirectionStep + 1 else indirectionStep - 1;
        Eat();
        ts := Tail(ts);
        if Prefixes.LimitTest(indirectionStep as int) {
          return None;
        }
        more := loopCounter < LOOP_LIMIT;
        loopCounter := loopCounter + 1;
      }
      r := Some(indirectionStep as int);
    }

    method ParseIdentifier() returns (r: Option<string>)
      requires Ready()
      modifies lexer
      ensures Ready()
      ensures if Head(old(Left())) == Lexing.Identifier then r == Some(Value(old(Left()))) && Left() == Tail(old(Left())) else r == None
    {
      if Current() != Lexing.Identifier {
        return None;
      }
      r := Some(CurrentValue());
      Eat();
    }

    method ParseLiteral() returns (r: Option<string>)
      requires Ready()
      modifies lexer
      ensures Ready()
      ensures if Head(old(Left())) == Lexing.IntegerLiteral || Head(old(Left())) == Lexing.StringLiteral
              then r == Some(Value(old(Left()))) && Left() == Tail(old(Left())) else r == None
    {
      if Current() != Lexing.IntegerLiteral && Current() != Lexing.StringLiteral {
        return None;
      }
      r := Some(CurrentValue());
      Eat();
    }

    method ParseOperand() returns (r: Option<Operand>)
      requires Ready()
      modifies lexer
      ensures Ready() && Reads(Grammar.ParseOperand(old(Left())), r, Left())
      decreases |Left()|, 0
    {
      hide Prefixes.NetIndirection, Prefixes.NetSteps, ParseCall, PrefixLoop, Parser.CameFrom, Lexing.Tokens,
        Lexing.Lexer.Valid;
      var step := ParseIndirection();
      if step == None {
        return None;
      }
      var kind := Current();
      if kind == Lexing.Identifier {
        var name := ParseIdentifier();
        if Current() == Lexing.LeftParenthesis {
          var call := ParseFunctionCall(name.value);
          if call == None || step.value != 0 {
            return None;
          }
          r := Some(CallOperand(call.value));
        } else {
          r := Some(Operand.Identifier(name.value, Prefixes.NetIndirection(step.value), Prefixes.NetSteps(step.value)));
        }
      } else if kind == Lexing.StringLiteral || kind == Lexing.IntegerLiteral {
        var literal := ParseLiteral();
        if step.value != 0 {
          return None;
        }
        r := Some(if kind == Lexing.StringLiteral then Operand.StringLiteral(literal.value) else Operand.IntegerLiteral(literal.value));
      } else {
        r := None;
      }
    }

    method ParseExpressionUnit(firstUnit: bool) returns (r: Option<Unit>)
      requires Ready()
      modifies lexer
      ensures Ready() && Reads(ParseUnit(old(Left()), firstUnit), r, Left())
      decreases |Left()|, 1
    {
      var operation: Option<Operator> := None;
      if !firstUnit {
        operation := OperatorOf(Current());
        if operation == None {
          return None;
        }
        Eat();
      }
      var operand := ParseOperand();
      r := if operand == None then None else Some(Unit(operation, operand.value));
    }

    method ParseExpression() returns (r: Option<Expression>)
      requires Ready()
      modifies lexer
      ensures Ready() && Reads(Grammar.ParseExpression(old(Left())), r, Left())
      decreases |Left()|, 3
    {
      ghost var ts := Left();
      var units: seq<Unit>, firstIteration, loopCounter, more := [], true, 0, true;
      BeforeNothing(ParseUnits(ts, true, 0));
      while more
        invariant Ready() && loopCounter >= 0 && |Left()| <= |ts|
        invariant ParseUnits(ts, true, 0) == if more then Before(units, ParseUnits(Left(), firstIteration, loopCounter)) else Some((units, Left()))
        decreases |Left()|, more
      {
        UnitsTurn(Left(), firstIteration, loopCounter, units);
        var target := ParseExpressionUnit(firstIteration);
        if target == None {
          return None;
        }
        firstIteration := false;
        units := units + [target.value];
        more := IsOperator(Current()) && loopCounter < LOOP_LIMIT;
        loopCounter := loopCounter + 1;
      }
      r := Some(Expression(units, NO_TYPE));
    }

    // The parameters of a call.
    method ParseArguments() returns (r: Option<seq<Expression>>)
      requires Ready()
      modifies lexer
      ensures Ready()
      ensures var ts := old(Left());
              if Head(ts) == Lexing.RightParenthesis then r == Some([]) && Left() == ts else Reads(Grammar.ParseArguments(ts, 0), r, Left())
      decreases |Left()|, 4
    {
      if Current() == Lexing.RightParenthesis {
        return Some([]);
      }
      ghost var ts := Left();
      var parameters: seq<Expression>, loopCounter, more := [], 0, true;
      BeforeNothing(Grammar.ParseArguments(ts, 0));
      while more
        invariant Ready() && loopCounter >= 0 && |Left()| <= |ts|
        invariant Grammar.ParseArguments(ts, 0) == if more then Before(parameters, Grammar.ParseArguments(Left(), loopCounter)) else Some((parameters, Left()))
        decreases |Left()|, more
      {
        ArgumentsTurn(Left(), loopCounter, parameters);
        var expression := ParseExpression();
        if expression == None {
          return None;
        }
        parameters := parameters + [expression.value];
        if Current() == Lexing.RightParenthesis {
          more := false;
        } else {
          if Current() != Lexing.Comma {
            return None;
          }
          Eat();
          more := loopCounter < LOOP_LIMIT;
          loopCounter := loopCounter + 1;
        }
      }
      r := Some(parameters);
    }

    method ParseFunctionCall(name: string) returns (r: Option<Call>)
      requires Ready()
      modifies lexer
      ensures Ready() && Reads(ParseCall(name, old(Left())), r, Left())
      decreases |Left()|, 0
    {
      if Current() != Lexing.LeftParenthesis {
        return None;
      }
      Eat();
      var parameters := ParseArguments();
      if parameters == None || Current() != Lexing.RightParenthesis {
        return None;
      }
      Eat();
      r := Some(Call(name, parameters.value));
    }

    // ----- declarations -----

    method ParseType() returns (r: Option<Type>)
      requires Ready()
      modifies lexer
      ensures Ready() && Reads(Grammar.ParseType(old(Left())), r, Left())
    {
      var dataType := DataTypeOf(Current());
      if dataType == None {
        return None;
      }
      Eat();
      if Current() != Lexing.Ampersand {
        return Some(Type(dataType.value, false, 0));
      }
      ghost var ts := Left();
      var pointerDepth, more := 1, true;
      while more
        invariant Ready() && pointerDepth >= 1
        invariant more ==> Head(Left()) == Lexing.Ampersand && DepthLoop(ts, 1) == DepthLoop(Left(), pointerDepth)
        invariant !more ==> DepthLoop(ts, 1) == (pointerDepth, Left())
        decreases |Left()|, more
      {
        Eat();
        if Current() != Lexing.Ampersand {
          more := false;
        } else {
          pointerDepth := pointerDepth + 1;
          more := pointerDepth < LOOP_LIMIT;
        }
      }
      r := Some(Type(dataType.value, true, pointerDepth));
    }

    method ParseVariable() returns (r: Option<Variable>)
      requires Ready()
      modifies lexer
      ensures Ready() && Reads(Grammar.ParseVariable(old(Left())), r, Left())
    {
      var typ := ParseType();
      if typ == None {
        return None;
      }
      var name := ParseIdentifier();
      r := if name == None then None else Some(Variable(typ.value, name.value));
    }

    // ----- statements -----

    // The expression that is assigned.
    method ParseAssignment() returns (r: Option<Expression>)
      requires Ready()
      modifies lexer
      ensures Ready() && Reads(ParseAssigned(old(Left())), r, Left())
    {
      if Current() != Lexing.Equal {
        return None;
      }
      Eat();
      r := ParseExpression();
      if r != None && Current() != Lexing.Newline {
        return None;
      }
    }

    method ParseFunctionCallOrAssignment(indirection: nat) returns (r: Option<seq<Statement>>)
      requires Ready()
      modifies lexer
      ensures Ready() && Reads(ParseCallOrAssignment(old(Left()), indirection), r, Left())
    {
      var name := ParseIdentifier();
      if name == None {
        return None;
      }
      if Current() == Lexing.Equal {
        var expression := ParseAssignment();
        r := if expression == None then None else Some([Assignment(name.value, indirection, expression.value)]);
      } else {
        var call := ParseFunctionCall(name.value);
        r := if call == None then None else Some([CallStatement(call.value)]);
      }
    }

    method ParseVariableAndMaybeAssignment() returns (r: Option<seq<Statement>>)
      requires Ready()
      modifies lexer
      ensures Ready() && Reads(ParseDeclaration(old(Left())), r, Left())
    {
      DeclarationParts(Left());
      var variable := ParseVariable();
      if variable == None {
        return None;
      }
      var statements := [Declaration(variable.value)];
      if Current() == Lexing.Equal {
        var expression := ParseAssignment();
        if expression == None {
          return None;
        }
        return Some(statements + [Assignment(variable.value.name, 0, expression.value)]);
      }
      r := if Current() != Lexing.Newline then None else Some(statements);
    }

    method CountStars() returns (stars: nat)
      requires Ready()
      modifies lexer
      ensures Ready() && Gives(StarLoop(old(Left()), 0, 0), stars, Left())
    {
      ghost var ts := Left();
      var loopCounter, more := 0, true;
      stars := 0;
      while more
        invariant Ready() && loopCounter >= 0
        invariant StarLoop(ts, 0, 0) == if more then StarLoop(Left(), stars, loopCounter) else (stars, Left())
        decreases |Left()|, more
      {
        if Current() == Lexing.Star {
          stars := stars + 1;
          Eat();
          more := loopCounter < LOOP_LIMIT;
          loopCounter := loopCounter + 1;
        } else {
          more := false;
        }
      }
    }

    // One turn of the loop over statements.
    method ParseOneStatement() returns (r: Option<seq<Statement>>)
      requires Ready()
      modifies lexer
      ensures Ready() && Reads(ParseStatement(old(Left())), r, Left())
      decreases |Left()|, 4
    {
      hide ParseCallOrAssignment, ParseGroup, ParseDeclaration, Gives;
      match Current()
      case Star =>
        var stars := CountStars();
        r := ParseFunctionCallOrAssignment(stars);
      case If =>
        var chain := ParseConditionalBranchingGroup();
        r := if chain == None then None else Some([Conditional(chain.value)]);
      case Identifier => r := ParseFunctionCallOrAssignment(0);
      case _ => r := ParseVariableAndMaybeAssignment();
    }

    method ParseStatements() returns (r: Option<seq<Statement>>)
      requires Ready()
      modifies lexer
      ensures Ready() && Reads(Grammar.ParseStatements(old(Left())), r, Left())
      decreases |Left()|, 6
    {
      if EndsStatements(Current()) {
        return Some([]);
      }
      ghost var start := Left();
      SkipUntilNotNewline();
      ghost var ts := Left();
      var statements: seq<Statement>, loopCounter, more := [], 0, true;
      BeforeNothing(StatementLoop(ts, 0));
      while more
        invariant Ready() && loopCounter >= 0 && |Left()| <= |ts|
        invariant StatementLoop(ts, 0) == if more then Before(statements, StatementLoop(Left(), loopCounter)) else Some((statements, Left()))
        decreases |Left()|, more
      {
        StatementTurn(Left(), loopCounter, statements);
        ghost var before := Left();
        var one := ParseOneStatement();
        if one == None {
          return None;
        }
        statements := statements + one.value;
        Eat();
        SkipUntilNotNewline();
        more := !EndsStatements(Current()) && loopCounter < LOOP_LIMIT;
        loopCounter := loopCounter + 1;
      }
      r := Some(statements);
    }

    method ParseConditionalBranchingGroup() returns (r: Option<seq<Branch>>)
      requires Ready()
      modifies lexer
      ensures Ready() && Reads(ParseGroup(old(Left()), true), r, Left())
      decreases |Left()|, 3
    {
      ghost var ts := Left();
      var conditionalChain: seq<Branch>, start, more := [], true, true;
      BeforeNothing(ParseGroup(ts, true));
      while more
        invariant Ready() && |Left()| <= |ts|
        invariant ParseGroup(ts, true) == if more then Before(conditionalChain, ParseGroup(Left(), start)) else Some((conditionalChain, Left()))
        decreases |Left()|, more
      {
        GroupTurn(Left(), start, conditionalChain);
        SkipUntilNotNewline();
        var branch := ParseConditionalBranch(start);
        if branch == None {
          return None;
        }
        start := false;
        conditionalChain := conditionalChain + [branch.value];
        var lookaheadToken := LookAheadNotNewline();
        more := lookaheadToken == Lexing.Elif || lookaheadToken == Lexing.Else;
      }
      r := Some(conditionalChain);
    }

    method ParseConditionalBranch(start: bool) returns (r: Option<Branch>)
      requires Ready()
      modifies lexer
      ensures Ready() && Reads(ParseBranch(old(Left()), start), r, Left())
      decreases |Left()|, 2
    {
      if start {
        if Current() != Lexing.If {
          return None;
        }
      } else if Current() != Lexing.Elif && Current() != Lexing.Else {
        return None;
      }
      var isNotElse := Current() != Lexing.Else;
      Eat();
      var condition: Option<Expression> := None;
      if isNotElse {
        if Current() != Lexing.LeftParenthesis {
          return None;
        }
        Eat();
        condition := ParseExpression();
        if condition == None || Current() != Lexing.RightParenthesis {
          return None;
        }
        Eat();
      }
      var block := ParseBlock();
      r := if block == None then None else Some(Branch(condition, block.value));
    }

    method ParseReturn() returns (r: Option<Option<Expression>>)
      requires Ready()
      modifies lexer
      ensures Ready() && Reads(Grammar.ParseReturn(old(Left())), r, Left())
    {
      if Current() != Lexing.Return {
        return Some(None);
      }
      Eat();
      var expression := ParseExpression();
      r := if expression == None then None else Some(expression);
    }

    method ParseBlock() returns (r: Option<Block>)
      requires Ready()
      modifies lexer
      ensures Ready() && Reads(Grammar.ParseBlock(old(Left())), r, Left())
      decreases |Left()|, 1
    {
      SkipUntilNotNewline();
      if Current() != Lexing.LeftCurlyBrace {
        return None;
      }
      Eat();
      SkipUntilNotNewline();
      var statements := ParseStatements();
      if statements == None {
        return None;
      }
      var returnValue := ParseReturn();
      if returnValue == None {
        return None;
      }
      SkipUntilNotNewline();
      if Current() != Lexing.RightCurlyBrace {
        return None;
      }
      Eat();
      r := Some(Block(statements.value, returnValue.value));
    }

    // ----- the first pass -----

    method SkipFunctionBody() returns (ok: bool)
      requires Ready()
      modifies lexer
      ensures Ready() && ok == SkipBody(old(Left())).Some? && (ok ==> Left() == SkipBody(old(Left())).value)
    {
      if Current() != Lexing.LeftCurlyBrace {
        SkipUntilNotNewline();
        if Current() != Lexing.LeftCurlyBrace {
          return false;
        }
      }
      Eat();
      ok := SkipToClosingBrace();
    }

    method SkipToClosingBrace() returns (ok: bool)
      requires Ready()
      modifies lexer
      ensures Ready() && ok == SkipBraces(old(Left()), 1, 0).Some? && (ok ==> Left() == SkipBraces(old(Left()), 1, 0).value)
    {
      hide Parser.Ready, SkipBraces, Tail;
      ghost var ts, end := Left(), SkipBraces(Left(), 1, 0);
      var curlyBraceCount: nat, loopCounter: nat, more := 1, 0, true;
      ok := false;
      while more
        invariant Ready() && Left() == ts
        invariant if more then !ok && curlyBraceCount > 0 && end == SkipBraces(ts, curlyBraceCount, loopCounter)
                  else end == if ok then Some(ts) else None
        decreases LOOP_LIMIT + 1 - loopCounter, more
      {
        BracesTurn(ts, curlyBraceCount, loopCounter);
        curlyBraceCount := Deeper(Current(), curlyBraceCount);
        if curlyBraceCount < 1 {
          ok, more := true, false;
        } else if loopCounter > LOOP_LIMIT {
          more := false;
        } else {
          loopCounter := loopCounter + 1;
          Eat();
          ts := Tail(ts);
        }
      }
    }

    method ParseDirective() returns (ok: bool)
      requires Ready()
      modifies lexer
      ensures Ready() && Gives(Grammar.ParseDirective(old(Left())), ok, Left())
    {
      if Current() != Lexing.LeftBracket {
        return true;
      }
      Eat();
      if Current() != Lexing.RightBracket {
        return false;
      }
      Eat();
      ok := true;
    }

    // The parameters of a declaration.
    method ParseParameters() returns (r: Option<seq<Variable>>)
      requires Ready()
      modifies lexer
      ensures Ready()
      ensures var ts := old(Left());
              if Head(ts) == Lexing.RightParenthesis then r == Some([]) && Left() == ts else Reads(Grammar.ParseParameters(ts, 0), r, Left())
    {
      if Current() == Lexing.RightParenthesis {
        return Some([]);
      }
      ghost var ts, end := Left(), Grammar.ParseParameters(Left(), 0);
      var parameters: seq<Variable>, loopCounter: nat, more := [], 0, true;
      BeforeNothing(end);
      while more
        invariant Ready() && Left() == ts
        invariant end == if more then Before(parameters, Grammar.ParseParameters(ts, loopCounter)) else Some((parameters, ts))
        decreases |ts|, more
      {
        ParametersTurn(ts, loopCounter, parameters);
        var variable := ParseVariable();
        if variable == None {
          return None;
        }
        parameters := parameters + [variable.value];
        if Current() == Lexing.RightParenthesis {
          more := false;
          ts := Left();
        } else {
          if Current() != Lexing.Comma {
            return None;
          }
          Eat();
          ts := Left();
          more := loopCounter < LOOP_LIMIT;
          loopCounter := loopCounter + 1;
        }
      }
      r := Some(parameters);
    }

    // A body can be read again from where it is recorded.
    lemma {:induction false} RestartsHere()
      requires Ready() && (Head(Left()) == Lexing.LeftCurlyBrace || Head(Left()) == Lexing.Newline)
      ensures StartsAt(lexer.input, lexer.index, Left())
    {
      var i: nat :| i <= |lexer.input| && Lexing.NextToken(lexer.input, i) == Some((lexer.currentToken, lexer.index));
      TwoPasses.RestartReproduces(lexer.input, i);
      assert Left()[1..] == Lexing.Tokens(lexer.input, lexer.index).value;
    }

    // What an item leaves behind when it is accepted.
    twostate predicate Pushes(top: Top)
      reads this
    {
      && items == old(items) + [Bare(top)] && |old(functionBodiesToParse)| <= |functionBodiesToParse|
      && functionBodiesToParse[..|old(functionBodiesToParse)|] == old(functionBodiesToParse)
      && Pushed(lexer.input, top, |old(items)|, functionBodiesToParse[|old(functionBodiesToParse)|..])
    }

    // From the opening parenthesis.
    method ParseFunction(variable: Variable) returns (ok: bool, ghost top: Option<Top>)
      requires Ready()
      modifies this, lexer
      ensures Ready() && Reads(Grammar.ParseFunction(variable, Tail(old(Left()))), top, Left())
      ensures ok == top.Some? && (ok ==> Pushes(top.value))
    {
      ok, top := false, None;
      HeaderParts(variable, Tail(Left()));
      Eat();
      var parameters := ParseParameters();
      if parameters == None || Current() != Lexing.RightParenthesis {
        return;
      }
      Eat();
      var _ := ParseDirective();
      ok, top := ParseDefinitionOrDeclaration(variable.name, Signature(parameters.value, variable.typ));
    }

    // From behind the header of a function.
    method ParseDefinitionOrDeclaration(name: string, signature: Signature) returns (ok: bool, ghost top: Option<Top>)
      requires Ready()
      modifies this, lexer
      ensures Ready() && Reads(AfterHeader(name, signature, old(Left())), top, Left())
      ensures ok == top.Some? && (ok ==> Pushes(top.value))
    {
      ok, top := false, None;
      var lookaheadToken := LookAheadNotNewline();
      if Current() == Lexing.LeftCurlyBrace || lookaheadToken == Lexing.LeftCurlyBrace {
        ghost var start := Left();
        functionBodiesToParse := functionBodiesToParse + [FunctionBodyToParse(lexer.index, |items|)];
        if Head(start) == Lexing.LeftCurlyBrace || Head(start) == Lexing.Newline {
          RestartsHere();
        }
        var skipped := SkipFunctionBody();
        if !skipped {
          return;
        }
        top := Some(FunctionTop(name, signature, Some(start)));
      } else {
        top := Some(FunctionTop(name, signature, None));
      }
      items := items + [Analysis.FunctionSource(name, signature, None)];
      ok := true;
    }

    method ParseConstantOperand() returns (r: Option<Items.Constant>)
      requires Ready()
      modifies lexer
      ensures Ready() && Reads(ParseConstant(old(Left())), r, Left())
    {
      var literal := ParseLiteral();
      r := if literal == None then None
           else Some(if Current() == Lexing.StringLiteral then Items.ConstString(literal.value) else Items.ConstInteger(literal.value));
    }

    method ParseVariableDeclarationOrFunction() returns (ok: bool, ghost top: Option<Top>)
      requires Ready()
      modifies this, lexer
      ensures Ready() && Reads(ParseTop(old(Left())), top, Left())
      ensures ok == top.Some? && (ok ==> Pushes(top.value))
    {
      ok, top := false, None;
      var variable := ParseVariable();
      if variable == None {
        return;
      }
      if Current() == Lexing.LeftParenthesis {
        ok, top := ParseFunction(variable.value);
        return;
      }
      ok, top := ParseGlobal(variable.value);
    }

    // A global variable behind its name.
    method ParseGlobal(variable: Variable) returns (ok: bool, ghost top: Option<Top>)
      requires Ready()
      modifies this`items, lexer
      ensures Ready() && Reads(Grammar.ParseGlobal(variable, old(Left())), top, Left())
      ensures ok == top.Some? && (ok ==> Pushes(top.value))
    {
      ok, top := false, None;
      var constOperand: Option<Items.Constant> := None;
      if Current() == Lexing.Equal {
        Eat();
        constOperand := ParseConstantOperand();
        if constOperand == None {
          return;
        }
      }
      if Current() != Lexing.Newline {
        return;
      }
      items := items + [Analysis.GlobalSource(variable, constOperand)];
      ok, top := true, Some(GlobalTop(variable, constOperand));
    }

    method ParseTopLevelItems() returns (ok: bool, ghost tops: seq<Top>)
      requires Ready() && items == [] && functionBodiesToParse == []
      modifies this, lexer
      ensures Ready() && ok == TopLoop(Tail(old(Left())), 0).Some?
      ensures ok ==> tops == TopLoop(Tail(old(Left())), 0).value && Kept(tops)
    {
      ghost var ts, end := Left(), TopLoop(Tail(Left()), 0);
      var loopCounter: nat, more := 0, true;
      tops := [];
      NoTops(end);
      while more
        invariant Ready() && Left() == ts && Kept(tops)
        invariant end == if more then TopsBefore(tops, TopLoop(Tail(ts), loopCounter)) else Some(tops)
        decreases if more then |ts| + 1 else 0
      {
        ok, more, tops := ParseTopLevelItem(tops, loopCounter);
        if !ok {
          return;
        }
        ts := Left();
        more := more && loopCounter < LOOP_LIMIT;
        loopCounter := loopCounter + 1;
      }
      ok := true;
    }

    // One turn of the loop; at the end of file there is no more to read.
    method ParseTopLevelItem(ghost tops: seq<Top>, ghost n: nat) returns (ok: bool, more: bool, ghost tops': seq<Top>)
      requires Ready() && Kept(tops)
      modifies this, lexer
      ensures Ready() && TopsBefore(tops, TopLoop(Tail(old(Left())), n)) == TopsAfter(ok, more, tops', Left(), n)
      ensures ok ==> Kept(tops') && (more ==> |Left()| < |old(Left())|)
    {
      Eat();
      tops', more := tops, true;
      if DataTypeOf(Current()).Some? {
        TopTurn(Left(), n, tops);
        ok, tops' := ParseNextItem(tops);
      } else {
        SeparatorTurn(Left(), n, tops);
        EndSeen();
        if Current() == Lexing.EndOfFile {
          return true, false, tops;
        }
        ok := ParseSeparator();
      }
    }

    // What the first pass has read so far.
    ghost predicate Kept(tops: seq<Top>)
      reads this
    {
      ParsedBelow(tops, items, 0) && Recorded(lexer.input, tops, functionBodiesToParse)
    }

    method ParseSeparator() returns (ok: bool)
      requires Ready()
      modifies lexer
      ensures Ready() && ok == (IsSeparator(Head(old(Left()))) && Grammar.ParseDirective(old(Left())).0)
      ensures ok ==> Left() == Grammar.ParseDirective(old(Left())).1
    {
      if !IsSeparator(Current()) {
        return false;
      }
      ok := ParseDirective();
    }

    lemma {:induction false} EndSeen()
      requires Ready()
      ensures Head(Left()) == Lexing.EndOfFile <==> Left() == []
    {
      if Head(Left()) == Lexing.EndOfFile {
        var i: nat :| i <= |lexer.input| && Lexing.NextToken(lexer.input, i) == Some((lexer.currentToken, lexer.index));
        EndOfFileOnly(lexer.input, i);
      }
    }

    // One item, added to those read.
    method ParseNextItem(ghost tops: seq<Top>) returns (ok: bool, ghost tops': seq<Top>)
      requires Ready() && Kept(tops)
      modifies this, lexer
      ensures Ready() && ok == ParseTop(old(Left())).Some?
      ensures ok ==> tops' == tops + [ParseTop(old(Left())).value.0] && Left() == ParseTop(old(Left())).value.1 && Kept(tops')
    {
      hide StartsAt, PendingAt, HasStart, Lexing.Tokens, Lexing.NextToken;
      ghost var bodies, top := functionBodiesToParse, None;
      ok, top := ParseVariableDeclarationOrFunction();
      tops' := tops;
      if ok {
        ghost var more := functionBodiesToParse[|bodies|..];
        assert functionBodiesToParse == bodies + more;
        RecordOne(lexer.input, tops, bodies, top.value, more);
        tops' := tops + [top.value];
      }
    }

    // ----- the second pass -----

    // Back to where a body was recorded.
    method Restart(startIndex: nat, ghost ts: Stream)
      requires StartsAt(lexer.input, startIndex, ts)
      modifies lexer
      ensures Ready() && Left() == ts
    {
      assert Lexing.Tokens(lexer.input, startIndex - 1) == Some([ts[0]] + ts[1..]);
      lexer.RestartFromIndex(startIndex);
      assert [ts[0]] + ts[1..] == ts;
    }

    method ParseFunctionBodies(ghost tops: seq<Top>) returns (ok: bool)
      requires Kept(tops)
      modifies this`items, lexer
      ensures ok == ParseBodies(tops).Some? && (ok ==> items == ParseBodies(tops).value)
    {
      var i := 0;
      while i < |functionBodiesToParse|
        invariant 0 <= i <= |functionBodiesToParse| && ParsedBelow(tops, items, Limit(functionBodiesToParse, i))
      {
        ok := ParseFunctionBody(i, tops);
        if !ok {
          return;
        }
        i := i + 1;
      }
      AllAdded(lexer.input, tops, functionBodiesToParse, items, Limit(functionBodiesToParse, i));
      ok := true;
    }

    // The i-th body, put into its item.
    method ParseFunctionBody(i: nat, ghost tops: seq<Top>) returns (ok: bool)
      requires i < |functionBodiesToParse| && Recorded(lexer.input, tops, functionBodiesToParse)
      requires ParsedBelow(tops, items, Limit(functionBodiesToParse, i))
      modifies this`items, lexer
      ensures if ok then ParsedBelow(tops, items, Limit(functionBodiesToParse, i + 1)) else ParseBodies(tops) == None
    {
      ghost var limit := Limit(functionBodiesToParse, i);
      var body := functionBodiesToParse[i];
      assert PendingAt(lexer.input, tops, body) && body.item >= limit;
      assert ParsedOne(tops[body.item], items[body.item], false);
      Restart(body.startIndex, tops[body.item].start.value);
      var block := ParseBlock();
      if block == None {
        BodiesFail(tops, body.item);
        return false;
      }
      BodyAdded(lexer.input, tops, functionBodiesToParse, items, i, limit, block.value);
      items := items[body.item := items[body.item].(body := Some(block.value))];
      ok := true;
    }

    // Both passes over a text nothing of which has been read.
    method Parse() returns (ok: bool)
      requires Ready() && items == [] && functionBodiesToParse == []
      modifies this, lexer
      ensures ok == Grammar.Parse(Tail(old(Left()))).Some?
      ensures ok ==> items == Grammar.Parse(Tail(old(Left()))).value
    {
      ghost var tops;
      ok, tops := ParseTopLevelItems();
      if ok {
        ok := ParseFunctionBodies(tops);
      }
    }
  }
}
