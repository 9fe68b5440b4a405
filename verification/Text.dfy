/**
  Tokens as text, and back: lexing what was printed gives what was printed.
 */
module Text {
  import opened Wrappers
  import opened Lexing

  function Keyword(t: TokenType): Option<string> {
    match t
    case If => Some("if")
    case Else => Some("else")
    case Elif => Some("elif")
    case Return => Some("return")
    case Or => Some("or")
    case And => Some("and")
    case IntType => Some("int")
    case SInt32Type => Some("sint32")
    case UInt32Type => Some("uint32")
    case BoolType => Some("bool")
    case StringType => Some("string")
    case CharType => Some("char")
    case _ => None
  }

  function Sign(t: TokenType): Option<char> {
    match t
    case LeftParenthesis => Some('(')
    case RightParenthesis => Some(')')
    case LeftCurlyBrace => Some('{')
    case RightCurlyBrace => Some('}')
    case LeftBracket => Some('[')
    case RightBracket => Some(']')
    case Comma => Some(',')
    case Plus => Some('+')
    case Minus => Some('-')
    case Equal => Some('=')
    case Star => Some('*')
    case Ampersand => Some('&')
    case _ => None
  }

  function Escape(value: string): string {
    if value == [] then []
    else (if value[0] == '"' || value[0] == '\\' then ['\\', value[0]] else [value[0]]) + Escape(value[1..])
  }

  function Spelling(t: Token): string {
    match t.typ
    case Identifier => t.value
    case IntegerLiteral => t.value
    case StringLiteral => "\"" + Escape(t.value) + "\""
    case Newline => "\n"
    case _ => if Keyword(t.typ).Some? then Keyword(t.typ).value else if Sign(t.typ).Some? then [Sign(t.typ).value] else ""
  }

  ghost predicate Legal(t: Token) {
    match t.typ
    case Identifier => t.value != [] && IsAlpha(t.value[0]) && (forall c :: c in t.value ==> IsAlnum(c)) && Reserved(t.value).None?
    case IntegerLiteral => t.value != [] && IsDigit(t.value[0]) && forall c :: c in t.value ==> IsNumeral(c)
    case StringLiteral => true
    case NoToken => false
    case EndOfFile => false
    case _ => t.value == ""
  }

  // A blank after every token but a newline.
  function TextOf(ts: seq<Token>): string {
    if ts == [] then [] else Spelling(ts[0]) + GapAfter(ts[0]) + TextOf(ts[1..])
  }

  function GapAfter(t: Token): string { if t.typ == Newline then [] else [' '] }

  predicate EndsInNewline(ts: seq<Token>) { ts != [] && ts[|ts| - 1].typ == Newline }

  function Printed(ts: seq<Token>): string {
    TextOf(ts) + if EndsInNewline(ts) then [] else ['\n']
  }

  // ----- reading back one token -----

  ghost predicate Has(input: string, i: nat, s: string) {
    i + |s| <= |input| && input[i..i + |s|] == s
  }

  lemma {:induction false} HasAt(input: string, i: nat, s: string, k: nat)
    requires Has(input, i, s) && k < |s|
    ensures input[i + k] == s[k]
  {
    assert input[i..i + |s|][k] == s[k];
  }

  lemma {:induction false} RunReads(input: string, i: nat, s: string, p: char -> bool, k: nat)
    requires Has(input, i, s) && k <= |s| && (forall c :: c in s ==> p(c))
    requires i + |s| < |input| ==> !p(input[i + |s|])
    ensures RunEnd(input, i + k, p) == i + |s|
    decreases |s| - k
  {
    if k < |s| {
      HasAt(input, i, s, k);
      assert s[k] in s;
      RunReads(input, i, s, p, k + 1);
    }
  }

  function EscapedLength(c: char): nat { if c == '"' || c == '\\' then 2 else 1 }

  lemma {:induction false} EscapedReads(input: string, i: nat, value: string, before: string)
    requires i < |input| && value != [] && Has(input, i + 1, Escape(value) + "\"")
    ensures var n := EscapedLength(value[0]);
            && |Escape(value)| == n + |Escape(value[1..])| && i + n < |input| && Has(input, i + n + 1, Escape(value[1..]) + "\"")
            && StringFrom(input, i, before) == StringFrom(input, i + n, before + [value[0]])
  {
    var code, n, rest := Escape(value) + "\"", EscapedLength(value[0]), Escape(value[1..]) + "\"";
    HasAt(input, i + 1, code, 0);
    assert code == code[..n] + rest && code[n..] == rest;
    if n == 2 {
      HasAt(input, i + 1, code, 1);
    }
    assert input[i + n + 1..i + n + 1 + |rest|] == input[i + 1..i + 1 + |code|][n..];
  }

  lemma {:induction false} StringReads(input: string, i: nat, value: string, before: string)
    requires i < |input| && Has(input, i + 1, Escape(value) + "\"")
    ensures StringFrom(input, i, before) == Some((before + value, i + |Escape(value)| + 2))
    decreases |value|
  {
    if value == [] {
      HasAt(input, i + 1, "\"", 0);
      assert before + value == before;
    } else {
      hide Has, Escape, StringFrom;
      EscapedReads(input, i, value, before);
      StringReads(input, i + EscapedLength(value[0]), value[1..], before + [value[0]]);
      assert before + [value[0]] + value[1..] == before + value;
    }
  }

  ghost predicate Word(w: string) { w != [] && IsAlpha(w[0]) && forall c :: c in w ==> IsAlnum(c) }

  lemma {:induction false} KeywordWord(t: TokenType)
    requires Keyword(t).Some?
    ensures Word(Keyword(t).value) && Reserved(Keyword(t).value) == Some(t)
  {}

  // What follows does not run on into the token.
  predicate Stops(rest: string, t: Token) {
    rest == [] || (if t.typ == IntegerLiteral then !IsNumeral(rest[0]) else t.typ == Identifier || Keyword(t.typ).Some? ==> !IsAlnum(rest[0]))
  }

  ghost predicate Apart(input: string, i: nat, t: Token) {
    t.typ == Newline || (i < |input| && input[i] == ' ')
  }

  lemma {:induction false} ReadsWord(input: string, i: nat, w: string)
    requires Word(w) && Has(input, i, w) && (i + |w| < |input| ==> !IsAlnum(input[i + |w|]))
    ensures NextToken(input, i) == Some((WordToken(w), i + |w|))
  {
    HasAt(input, i, w, 0);
    RunReads(input, i, w, IsAlnum, 1);
  }

  lemma {:induction false} ReadsNumber(input: string, i: nat, w: string)
    requires w != [] && IsDigit(w[0]) && (forall c :: c in w ==> IsNumeral(c)) && Has(input, i, w) && (i + |w| < |input| ==> !IsNumeral(input[i + |w|]))
    ensures NextToken(input, i) == Some((Token(IntegerLiteral, w), i + |w|))
  {
    HasAt(input, i, w, 0);
    RunReads(input, i, w, IsNumeral, 1);
  }

  lemma {:induction false} QuoteBefore(input: string, i: nat, rest: string)
    requires Has(input, i, "\"" + rest)
    ensures input[i] == '"' && Has(input, i + 1, rest)
  {
    var s := "\"" + rest;
    HasAt(input, i, s, 0);
    assert input[i + 1..i + 1 + |rest|] == input[i..i + |s|][1..] == s[1..] == rest;
  }

  lemma {:induction false} ReadsString(input: string, i: nat, value: string)
    requires Has(input, i, "\"" + Escape(value) + "\"")
    ensures NextToken(input, i) == Some((Token(StringLiteral, value), i + |Escape(value)| + 2))
  {
    hide Escape, StringFrom;
    var rest := Escape(value) + "\"";
    assert "\"" + rest == "\"" + Escape(value) + "\"";
    QuoteBefore(input, i, rest);
    StringReads(input, i, value, "");
    assert "" + value == value;
  }

  lemma {:induction false} ReadsSign(input: string, i: nat, t: TokenType)
    requires Sign(t).Some? && Has(input, i, [Sign(t).value])
    ensures NextToken(input, i) == Some((Token(t, ""), i + 1))
  {
    HasAt(input, i, [Sign(t).value], 0);
  }

  lemma {:induction false} ReadsToken(input: string, i: nat, t: Token)
    requires Legal(t) && Has(input, i, Spelling(t)) && Stops(input[i + |Spelling(t)|..], t)
    ensures NextToken(input, i) == Some((t, i + |Spelling(t)|)) && |Spelling(t)| > 0
  {
    if t.typ == Identifier {
      ReadsWord(input, i, t.value);
    } else if t.typ == IntegerLiteral {
      ReadsNumber(input, i, t.value);
    } else if t.typ == StringLiteral {
      ReadsString(input, i, t.value);
    } else if t.typ == Newline {
      HasAt(input, i, "\n", 0);
    } else if Keyword(t.typ).Some? {
      KeywordWord(t.typ);
      ReadsWord(input, i, Keyword(t.typ).value);
    } else {
      ReadsSign(input, i, t.typ);
    }
  }

  // ----- a whole text -----

  ghost predicate AllLegal(ts: seq<Token>) { forall t :: t in ts ==> Legal(t) }

  lemma {:induction false} FirstAndRest(ts: seq<Token>)
    requires ts != [] && AllLegal(ts)
    ensures Legal(ts[0]) && AllLegal(ts[1..]) && (|ts| > 1 ==> Legal(ts[1]))
    ensures EndsInNewline(ts) <==> if |ts| == 1 then ts[0].typ == Newline else EndsInNewline(ts[1..])
  {}

  // The text of legal tokens from i on, with something behind its last blank.
  ghost predicate Holds(input: string, i: nat, ts: seq<Token>) {
    && AllLegal(ts) && Has(input, i, TextOf(ts))
    && (ts == [] || EndsInNewline(ts) || i + |TextOf(ts)| < |input|)
  }

  ghost predicate HoldsFirst(input: string, i: nat, t: Token) {
    && Legal(t) && Has(input, i, Spelling(t)) && Apart(input, i + |Spelling(t)|, t)
    && (t.typ != Newline ==> i + |Spelling(t)| + 1 < |input|)
  }

  function Behind(i: nat, t: Token): nat { i + |Spelling(t)| + |GapAfter(t)| }

  lemma {:induction false} SomeText(ts: seq<Token>)
    requires ts != [] && Legal(ts[0])
    ensures |TextOf(ts)| > 0
  {
    hide Legal, Escape, Keyword, Sign;
    assert TextOf(ts) == Spelling(ts[0]) + GapAfter(ts[0]) + TextOf(ts[1..]);
  }

  // Something is behind the first token, unless it is a newline.
  lemma {:induction false} RoomBehind(input: string, i: nat, ts: seq<Token>)
    requires ts != [] && Holds(input, i, ts)
    ensures Behind(i, ts[0]) + |TextOf(ts[1..])| == i + |TextOf(ts)|
    ensures ts[0].typ != Newline ==> Behind(i, ts[0]) < |input|
  {
    hide TextOf, Legal, Spelling;
    TextSplits(input, i, ts);
    if EndsInNewline(ts) && ts[0].typ != Newline {
      FirstAndRest(ts);
      SomeText(ts[1..]);
    }
  }

  lemma {:induction false} FirstHolds(input: string, i: nat, ts: seq<Token>)
    requires ts != [] && Holds(input, i, ts)
    ensures HoldsFirst(input, i, ts[0])
  {
    hide TextOf, Legal, Spelling, EndsInNewline;
    FirstAndRest(ts);
    TextSplits(input, i, ts);
    RoomBehind(input, i, ts);
  }

  lemma {:induction false} RestHolds(input: string, i: nat, ts: seq<Token>)
    requires ts != [] && Holds(input, i, ts)
    ensures Holds(input, Behind(i, ts[0]), ts[1..])
  {
    hide TextOf, Legal, Spelling, Has, EndsInNewline;
    FirstAndRest(ts);
    TextSplits(input, i, ts);
    RoomBehind(input, i, ts);
  }

  lemma {:induction false} HoldsSplit(input: string, i: nat, ts: seq<Token>)
    requires ts != [] && Holds(input, i, ts)
    ensures HoldsFirst(input, i, ts[0]) && Holds(input, Behind(i, ts[0]), ts[1..])
    ensures Behind(i, ts[0]) + |TextOf(ts[1..])| == i + |TextOf(ts)|
  {
    FirstHolds(input, i, ts);
    RestHolds(input, i, ts);
    RoomBehind(input, i, ts);
  }

  lemma {:induction false} ReadsText(input: string, i: nat, ts: seq<Token>, more: seq<Token>)
    requires Holds(input, i, ts) && Tokens(input, i + |TextOf(ts)|) == Some(more)
    ensures Tokens(input, i) == Some(ts + more)
    decreases |ts|
  {
    hide Tokens, NextToken, HoldsFirst, AllLegal, Legal, Spelling, Behind, EndsInNewline;
    if ts == [] {
      assert [] + more == more;
    } else {
      HoldsSplit(input, i, ts);
      ReadsText(input, Behind(i, ts[0]), ts[1..], more);
      ReadsFirst(input, i, ts[0], ts[1..] + more);
      ConsAppend(ts, more);
    }
  }

  lemma {:induction false} ConsAppend<T>(s: seq<T>, more: seq<T>)
    requires s != []
    ensures [s[0]] + (s[1..] + more) == s + more
  {}

  lemma {:induction false} GapBehind(input: string, i: nat, t: Token)
    requires HoldsFirst(input, i, t)
    ensures var j := i + |Spelling(t)|;
            if t.typ == Newline then Behind(i, t) == j else j + 1 < |input| && input[j] == ' ' && Behind(i, t) == j + 1
  {
    hide Legal, Spelling, Has;
  }

  lemma {:induction false} ReadsFirst(input: string, i: nat, t: Token, others: seq<Token>)
    requires HoldsFirst(input, i, t) && Behind(i, t) <= |input| && Tokens(input, Behind(i, t)) == Some(others)
    ensures Tokens(input, i) == Some([t] + others)
  {
    hide Legal, Spelling, Has, Apart, NextToken, Behind;
    GapBehind(input, i, t);
    ReadsToken(input, i, t);
    if t.typ != Newline {
      ReadsBlank(input, i + |Spelling(t)|);
    }
  }

  lemma {:induction false} HasSplit(input: string, i: nat, a: string, b: string)
    requires Has(input, i, a + b)
    ensures Has(input, i, a) && Has(input, i + |a|, b)
  {
    var s := a + b;
    assert input[i..i + |a|] == input[i..i + |s|][..|a|] == a;
    assert input[i + |a|..i + |a| + |b|] == input[i..i + |s|][|a|..] == b;
  }

  lemma {:induction false} TextSplits(input: string, i: nat, ts: seq<Token>)
    requires ts != [] && Has(input, i, TextOf(ts))
    ensures var s, gap := Spelling(ts[0]), GapAfter(ts[0]);
            && |TextOf(ts)| == |s| + |gap| + |TextOf(ts[1..])|
            && Has(input, i, s) && (gap != [] ==> input[i + |s|] == ' ') && Has(input, i + |s| + |gap|, TextOf(ts[1..]))
  {
    hide Spelling, Legal;
    var s, gap, rest := Spelling(ts[0]), GapAfter(ts[0]), TextOf(ts[1..]);
    assert TextOf(ts) == s + gap + rest;
    HasSplit(input, i, s + gap, rest);
    HasSplit(input, i, s, gap);
    if gap != [] {
      HasAt(input, i + |s|, gap, 0);
    }
  }

  lemma {:induction false} ReadsBlank(input: string, i: nat)
    requires i + 1 < |input| && input[i] == ' '
    ensures Tokens(input, i) == Tokens(input, i + 1)
  {
    assert NextToken(input, i) == NextToken(input, i + 1);
  }

  lemma {:induction false} ReadsEnd(input: string)
    ensures Tokens(input, |input|) == Some([])
    ensures input != [] && input[|input| - 1] == '\n' ==> Tokens(input, |input| - 1) == Some([NEWLINE])
  {
    if input != [] && input[|input| - 1] == '\n' {
      assert Tokens(input, |input|) == Some([]) && [NEWLINE] + [] == [NEWLINE];
      assert NextToken(input, |input| - 1) == Some((NEWLINE, |input|));
    }
  }

  // Lexing a printed list gives the list, then the final newline if the list
  // has none of its own, then the end of file.
  lemma {:induction false} LexerRoundTrip(ts: seq<Token>)
    requires forall t :: t in ts ==> Legal(t)
    ensures Tokens(Printed(ts), 0) == Some(ts + if EndsInNewline(ts) then [] else [NEWLINE])
  {
    hide Tokens, TextOf, Legal, EndsInNewline;
    var input, n := Printed(ts), |TextOf(ts)|;
    assert input[0..n] == TextOf(ts);
    ReadsEnd(input);
    if EndsInNewline(ts) {
      assert n == |input|;
      ReadsText(input, 0, ts, []);
    } else {
      assert input[n] == '\n' && n + 1 == |input|;
      ReadsText(input, 0, ts, [NEWLINE]);
    }
  }

  lemma {:induction false} WordIsNoSign(word: string)
    ensures var t := WordToken(word); t.typ != Newline && Sign(t.typ).None?
  {}

  // A token of one character is at hand, or behind a blank or a comment.
  lemma {:induction false} OneTurn(input: string, i: nat)
    requires i <= |input| && NextToken(input, i).Some?
    requires var t := NextToken(input, i).value.0; t.typ == Newline || Sign(t.typ).Some?
    ensures || NextToken(input, i).value.1 == i + 1
            || (i < |input| && NextToken(input, i) == NextToken(input, i + 1))
            || (i < |input| && NextToken(input, i) == NextToken(input, CommentEnd(input, i)))
  {
    hide IsSpace, RunEnd, StringFrom, WordToken, CommentEnd;
    if i < |input| && IsAlpha(input[i]) {
      WordIsNoSign(input[i..RunEnd(input, i + 1, IsAlnum)]);
    }
  }

  // A token of one character can be read again from the index behind it.
  lemma {:induction false} OneCharacter(input: string, i: nat)
    requires i <= |input| && NextToken(input, i).Some?
    requires var t := NextToken(input, i).value.0; t.typ == Newline || Sign(t.typ).Some?
    ensures var (t, j) := NextToken(input, i).value; j > 0 && NextToken(input, j - 1) == Some((t, j))
    decreases |input| - i
  {
    hide NextToken, CommentEnd, Sign;
    OneTurn(input, i);
    if NextToken(input, i).value.1 != i + 1 {
      if NextToken(input, i) == NextToken(input, i + 1) {
        OneCharacter(input, i + 1);
      } else {
        OneCharacter(input, CommentEnd(input, i));
      }
    }
  }

  // Every call but the one at the end of file reads at least one character.
  lemma {:induction false} Progress(input: string, i: nat)
    requires i <= |input| && Tokens(input, i).Some?
    ensures |Tokens(input, i).value| <= |input| - i
    decreases |input| - i
  {
    var (t, j) := NextToken(input, i).value;
    if t != END_OF_FILE {
      Progress(input, j);
    }
  }
}
