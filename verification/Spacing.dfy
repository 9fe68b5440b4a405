/**
  What may stand between tokens: blanks, comments of both kinds and lone
  slashes give no token, wherever a text has them.
 */
module Spacing {
  import opened Wrappers
  import opened Lexing
  import opened Text

  datatype Piece = Blank(c: char) | Line(text: string) | Block(text: string) | Slash

  function SpellPiece(p: Piece): (s: string)
    ensures s != []
  {
    match p
    case Blank(c) => [c]
    case Line(text) => "//" + text
    case Block(text) => "/*" + text + "*/"
    case Slash => "/"
  }

  // No comment begins or goes on behind a slash.
  predicate Quiet(next: string) { next == [] || (next[0] != '/' && next[0] != '*') }

  // A piece with `next` behind it. A blank must not end the text; a block
  // comment holds no `*/` of its own, not even with the star it opens with.
  ghost predicate Stands(p: Piece, next: string) {
    match p
    case Blank(c) => IsSpace(c) && !IsNewline(c) && next != []
    case Line(text) => (forall c :: c in text ==> !IsNewline(c)) && (next == [] || IsNewline(next[0]))
    case Block(text) => (forall k :: 0 <= k <= |text| ==> !Closes("*" + text + "*/", k)) && Quiet(next)
    case Slash => Quiet(next)
  }

  // The classes of characters that the scanner goes by.
  lemma {:induction false} ClassesExact(c: char)
    ensures IsAlpha(c) <==> c in "ABCDEFGHIJKLMNOPQRSTUVWXYZ" || c in "abcdefghijklmnopqrstuvwxyz"
    ensures IsDigit(c) <==> c in "0123456789"
    ensures IsNumeral(c) <==> c in "0123456789."
    ensures IsNewline(c) <==> c in "\n\r"
    ensures IsSpace(c) <==> c in " \t\n\U{0B}\U{0C}\r"
  {
    UpperCase(c);
    LowerCase(c);
    var digits := "0123456789";
    assert IsDigit(c) ==> digits[c as int - '0' as int] == c;
  }

  // Separators and keywords are those that print as themselves.
  lemma {:induction false} MarksExact(c: char, word: string, t: TokenType)
    ensures Separator(c) == Some(t) <==> Sign(t) == Some(c)
    ensures Reserved(word) == Some(t) <==> Keyword(t) == Some(word)
  {}

  lemma {:induction false} UpperCase(c: char)
    ensures 'A' <= c <= 'Z' <==> c in "ABCDEFGHIJKLMNOPQRSTUVWXYZ"
  {
    var letters := "ABCDEFGHIJKLMNOPQRSTUVWXYZ";
    assert 'A' <= c <= 'Z' ==> letters[c as int - 'A' as int] == c;
  }

  lemma {:induction false} LowerCase(c: char)
    ensures 'a' <= c <= 'z' <==> c in "abcdefghijklmnopqrstuvwxyz"
  {
    var letters := "abcdefghijklmnopqrstuvwxyz";
    assert 'a' <= c <= 'z' ==> letters[c as int - 'a' as int] == c;
  }

  // Any other character is a token of no kind, and so is the terminator that a
  // blank at the end of the text leads to.
  lemma {:induction false} OddCharacters(input: string, i: nat)
    requires i < |input|
    ensures var c := input[i];
            c !in "ABCDEFGHIJKLMNOPQRSTUVWXYZ" && c !in "abcdefghijklmnopqrstuvwxyz" && c !in "0123456789" && c !in " \t\n\U{0B}\U{0C}\r\"/(){}[],+-=*&"
            ==> NextToken(input, i) == Some((Token(NoToken, [c]), i + 1))
    ensures i + 1 == |input| && IsSpace(input[i]) && !IsNewline(input[i]) ==> NextToken(input, i) == Some((Token(NoToken, "\0"), |input|))
  {
    ClassesExact(input[i]);
  }

  // The text from i on.
  ghost predicate From(input: string, i: nat, s: string) { i <= |input| && input[i..] == s }

  lemma {:induction false} FromAt(input: string, i: nat, s: string, k: nat)
    requires From(input, i, s) && k < |s|
    ensures i + |s| == |input| && input[i + k] == s[k]
  {
    assert input[i..][k] == s[k];
  }

  lemma {:induction false} FromSplit(input: string, i: nat, a: string, b: string)
    requires From(input, i, a + b)
    ensures Has(input, i, a) && From(input, i + |a|, b)
  {
    assert input[i..][..|a|] == a && input[i + |a|..] == input[i..][|a|..] == b;
  }

  lemma {:induction false} LineEnd(input: string, i: nat, j: nat)
    requires Begins(input, i, '/') && i + 1 < j <= |input| && (forall k :: i + 1 < k < j ==> !IsNewline(input[k])) && (j < |input| ==> IsNewline(input[j]))
    ensures CommentEnd(input, i) == j
  {
    hide NextToken;
  }

  lemma {:induction false} CommentSkipped(input: string, i: nat)
    requires i < |input| && input[i] == '/'
    ensures NextToken(input, i) == NextToken(input, CommentEnd(input, i))
  {
    hide CommentEnd;
  }

  lemma {:induction false} SkipsLine(input: string, i: nat, text: string, next: string)
    requires Stands(Line(text), next) && From(input, i, SpellPiece(Line(text)) + next)
    ensures CommentEnd(input, i) == i + 2 + |text| && NextToken(input, i) == NextToken(input, i + 2 + |text|)
  {
    hide NextToken, IsNewline, CommentEnd;
    var all := SpellPiece(Line(text)) + next;
    var j := i + 2 + |text|;
    FromAt(input, i, all, 0);
    FromAt(input, i, all, 1);
    forall k | i + 1 < k < j ensures !IsNewline(input[k]) {
      FromAt(input, i, all, k - i);
      assert all[k - i] == text[k - i - 2] && text[k - i - 2] in text;
    }
    if j < |input| {
      FromAt(input, i, all, j - i);
    }
    LineEnd(input, i, j);
    CommentSkipped(input, i);
  }

  lemma {:induction false} SkipsSlash(input: string, i: nat, next: string)
    requires Quiet(next) && From(input, i, "/" + next)
    ensures NextToken(input, i) == NextToken(input, i + 1)
  {
    FromSplit(input, i, "/", next);
    HasAt(input, i, "/", 0);
    assert i + 1 < |input| ==> input[i + 1] == input[i + 1..][0] == next[0];
  }

  lemma {:induction false} BlockClosed(input: string, i: nat, j: nat, body: string)
    requires |body| >= 3 && j == i + |body| < |input| && (forall k :: 0 <= k < |body| ==> input[i + 1 + k] == body[k])
    requires body[0] == '*' && Closes(body, |body| - 2) && forall k :: 0 <= k < |body| - 2 ==> !Closes(body, k)
    ensures CommentEnd(input, i) == j
  {
    hide NextToken;
    assert Closes(input, j - 1);
    forall k | i < k < j - 1 ensures !Closes(input, k) {
      assert !Closes(body, k - i - 1);
    }
  }

  lemma {:induction false} SkipsBlock(input: string, i: nat, text: string, next: string)
    requires Stands(Block(text), next) && From(input, i, SpellPiece(Block(text)) + next)
    ensures CommentEnd(input, i) == i + 3 + |text| && NextToken(input, i) == NextToken(input, i + 4 + |text|)
  {
    hide NextToken, CommentEnd;
    var body, all := "*" + text + "*/", SpellPiece(Block(text)) + next;
    assert all == "/" + body + next;
    var j := i + 3 + |text|;
    FromAt(input, i, all, 0);
    forall k | 0 <= k < |body| ensures input[i + 1 + k] == body[k] {
      FromAt(input, i, all, k + 1);
    }
    BlockClosed(input, i, j, body);
    CommentSkipped(input, i);
    assert input[j] == '/' && input[j..] == "/" + next by {
      assert input[j..] == input[i..][j - i..] == all[j - i..];
    }
    SkipsSlash(input, j, next);
  }

  // A piece gives no token.
  lemma {:induction false} SkipsPiece(input: string, i: nat, p: Piece, next: string)
    requires Stands(p, next) && From(input, i, SpellPiece(p) + next)
    ensures From(input, i + |SpellPiece(p)|, next) && NextToken(input, i) == NextToken(input, i + |SpellPiece(p)|)
  {
    FromSplit(input, i, SpellPiece(p), next);
    match p
    case Blank(c) =>
      HasAt(input, i, [c], 0);
    case Line(text) => SkipsLine(input, i, text, next);
    case Block(text) => SkipsBlock(input, i, text, next);
    case Slash => SkipsSlash(input, i, next);
  }

  function SpellGap(gap: seq<Piece>): string {
    if gap == [] then [] else SpellPiece(gap[0]) + SpellGap(gap[1..])
  }

  ghost predicate GapStands(gap: seq<Piece>, next: string) {
    gap == [] || (Stands(gap[0], SpellGap(gap[1..]) + next) && GapStands(gap[1..], next))
  }

  lemma {:induction false} GroupGap(a: string, b: string, c: string)
    ensures a + b + c == a + (b + c)
  {}

  lemma {:induction false} SkipsGap(input: string, i: nat, gap: seq<Piece>, next: string)
    requires GapStands(gap, next) && From(input, i, SpellGap(gap) + next)
    ensures From(input, i + |SpellGap(gap)|, next) && NextToken(input, i) == NextToken(input, i + |SpellGap(gap)|)
    decreases |gap|
  {
    hide NextToken, Stands, SpellPiece;
    if gap == [] {
      assert SpellGap(gap) + next == next;
    } else {
      var s, rest := SpellPiece(gap[0]), SpellGap(gap[1..]);
      GroupGap(s, rest, next);
      SkipsPiece(input, i, gap[0], rest + next);
      SkipsGap(input, i + |s|, gap[1..], next);
    }
  }

  // ----- tokens as they may be written -----

  // What the code between the quotes stands for: a backslash takes the
  // character behind it as it is.
  function Decode(code: string): Option<string> {
    if code == [] then Some([])
    else if code[0] == '"' then None
    else if code[0] != '\\' then
      var rest :- Decode(code[1..]);
      Some([code[0]] + rest)
    else if |code| == 1 then None
    else
      var rest :- Decode(code[2..]);
      Some([code[1]] + rest)
  }

  // A string may escape what it likes, and a newline be either line end.
  ghost predicate Written(t: Token, s: string) {
    && Legal(t)
    && match t.typ
       case StringLiteral => exists code :: Decode(code) == Some(t.value) && s == "\"" + code + "\""
       case Newline => s == "\n" || s == "\r"
       case _ => s == Spelling(t)
  }

  lemma {:induction false} DecodeReads(input: string, i: nat, code: string, value: string, before: string)
    requires i < |input| && Has(input, i + 1, code + "\"") && Decode(code) == Some(value)
    ensures StringFrom(input, i, before) == Some((before + value, i + |code| + 2))
    decreases |code|
  {
    var s := code + "\"";
    HasAt(input, i + 1, s, 0);
    if code == [] {
      assert before + value == before;
    } else {
      var n := if code[0] == '\\' then 2 else 1;
      var rest := code[n..];
      assert s == code[..n] + (rest + "\"");
      HasSplit(input, i + 1, code[..n], rest + "\"");
      var c := code[n - 1];
      if n == 2 {
        HasAt(input, i + 1, s, 1);
      }
      DecodeReads(input, i + n, rest, Decode(rest).value, before + [c]);
      assert before + [c] + Decode(rest).value == before + value;
    }
  }

  lemma {:induction false} WrittenString(input: string, i: nat, code: string, value: string)
    requires Has(input, i, "\"" + code + "\"") && Decode(code) == Some(value)
    ensures NextToken(input, i) == Some((Token(StringLiteral, value), i + |code| + 2))
  {
    hide Decode, StringFrom;
    assert "\"" + (code + "\"") == "\"" + code + "\"";
    QuoteBefore(input, i, code + "\"");
    DecodeReads(input, i, code, value, "");
    assert "" + value == value;
  }

  lemma {:induction false} ReadsWritten(input: string, i: nat, t: Token, s: string)
    requires Written(t, s) && Has(input, i, s) && Stops(input[i + |s|..], t)
    ensures NextToken(input, i) == Some((t, i + |s|)) && |s| > 0 && t != END_OF_FILE
  {
    hide Decode;
    if t.typ == StringLiteral {
      var code :| Decode(code) == Some(t.value) && s == "\"" + code + "\"";
      WrittenString(input, i, code, t.value);
    } else if t.typ == Newline {
      HasAt(input, i, s, 0);
    } else {
      ReadsToken(input, i, t);
    }
  }

  // ----- whole texts -----

  // A token, as it is written, and what stands in front of it.
  datatype Laid = Laid(gap: seq<Piece>, token: Token, written: string)

  function TokensOf(laid: seq<Laid>): (ts: seq<Token>)
    ensures |ts| == |laid|
  {
    seq(|laid|, i requires 0 <= i < |laid| => laid[i].token)
  }

  function FreeText(laid: seq<Laid>, last: seq<Piece>): string {
    if laid == [] then SpellGap(last) else SpellGap(laid[0].gap) + (laid[0].written + FreeText(laid[1..], last))
  }

  ghost predicate Readable(laid: seq<Laid>, last: seq<Piece>) {
    if laid == [] then GapStands(last, [])
    else
      var behind := FreeText(laid[1..], last);
      && GapStands(laid[0].gap, laid[0].written + behind) && Written(laid[0].token, laid[0].written) && Stops(behind, laid[0].token)
      && Readable(laid[1..], last)
  }

  lemma {:induction false} FreeFrom(input: string, i: nat, laid: seq<Laid>, last: seq<Piece>)
    requires Readable(laid, last) && From(input, i, FreeText(laid, last))
    ensures Tokens(input, i) == Some(TokensOf(laid))
    decreases |laid|
  {
    hide NextToken, Written, GapStands, Stops;
    if laid == [] {
      assert SpellGap(last) + [] == SpellGap(last);
      SkipsGap(input, i, last, []);
      ReadsEnd(input);
    } else {
      var first, behind := laid[0], FreeText(laid[1..], last);
      var j := FirstFrom(input, i, first, behind);
      FreeFrom(input, j, laid[1..], last);
      assert TokensOf(laid) == [first.token] + TokensOf(laid[1..]);
    }
  }

  // The token behind a gap.
  lemma {:induction false} FirstFrom(input: string, i: nat, first: Laid, behind: string) returns (j: nat)
    requires From(input, i, SpellGap(first.gap) + (first.written + behind))
    requires GapStands(first.gap, first.written + behind) && Written(first.token, first.written) && Stops(behind, first.token)
    ensures i < j <= |input| && From(input, j, behind) && NextToken(input, i) == Some((first.token, j)) && first.token != END_OF_FILE
  {
    hide NextToken, Written, GapStands, Stops;
    SkipsGap(input, i, first.gap, first.written + behind);
    var k := i + |SpellGap(first.gap)|;
    FromSplit(input, k, first.written, behind);
    ReadsWritten(input, k, first.token, first.written);
    j := k + |first.written|;
  }

  // However a list of tokens is laid out, with blanks, comments and slashes
  // wherever nothing runs on into anything, it is lexed to the list.
  lemma {:induction false} FreeLayout(laid: seq<Laid>, last: seq<Piece>)
    requires Readable(laid, last)
    ensures Tokens(FreeText(laid, last), 0) == Some(TokensOf(laid))
  {
    assert FreeText(laid, last)[0..] == FreeText(laid, last);
    FreeFrom(FreeText(laid, last), 0, laid, last);
  }

  // ----- comments -----

  // A block comment that is not closed takes the rest of the text.
  lemma {:induction false} OpenComment(input: string, i: nat)
    requires i < |input| && input[i] == '/' && Begins(input, i, '*') && forall k :: i < k ==> !Closes(input, k)
    ensures NextToken(input, i) == Some((END_OF_FILE, |input|))
  {
    CommentSkipped(input, i);
  }

  // The printed text with remarks in front of its newlines.
  function Remarked(ts: seq<Token>, remarks: seq<Option<string>>): string
    requires |remarks| == |ts|
    decreases |ts|
  {
    if ts == [] then []
    else
      (if ts[0].typ == Newline then Remark(remarks[0]) else []) + Spelling(ts[0]) + (if ts[0].typ == Newline then [] else " ")
      + Remarked(ts[1..], remarks[1..])
  }

  function Remark(r: Option<string>): string { if r.Some? then "//" + r.value else [] }

  function GapFor(spaced: bool, t: Token, r: Option<string>): seq<Piece> {
    (if spaced then [Blank(' ')] else []) + if t.typ == Newline && r.Some? then [Line(r.value)] else []
  }

  function LaidWith(ts: seq<Token>, remarks: seq<Option<string>>, spaced: bool): seq<Laid>
    requires |remarks| == |ts|
    decreases |ts|
  {
    if ts == [] then []
    else [Laid(GapFor(spaced, ts[0], remarks[0]), ts[0], Spelling(ts[0]))] + LaidWith(ts[1..], remarks[1..], ts[0].typ != Newline)
  }

  ghost predicate OneLine(r: Option<string>) { r.Some? ==> forall c :: c in r.value ==> !IsNewline(c) }

  lemma {:induction false} RemarkStands(spaced: bool, t: Token, r: Option<string>, behind: string)
    requires Legal(t) && OneLine(r)
    ensures GapStands(GapFor(spaced, t, r), Spelling(t) + behind)
    ensures SpellGap(GapFor(spaced, t, r)) == (if spaced then " " else "") + if t.typ == Newline then Remark(r) else []
  {
    var gap, next := GapFor(spaced, t, r), Spelling(t) + behind;
    var line: seq<Piece> := if t.typ == Newline && r.Some? then [Line(r.value)] else [];
    ReadsSome(t);
    if line != [] {
      assert line[1..] == [] && SpellGap([]) + next == next && SpellPiece(line[0]) + [] == SpellPiece(line[0]);
    }
    assert GapStands(line, next);
    assert SpellGap(line) == if t.typ == Newline then Remark(r) else [];
    if spaced {
      assert gap[1..] == line;
    } else {
      assert gap == line;
    }
  }

  lemma {:induction false} ReadsSome(t: Token)
    requires Legal(t)
    ensures |Spelling(t)| > 0 && (t.typ == Newline ==> Spelling(t) == "\n") && Written(t, Spelling(t))
  {
    if t.typ == StringLiteral {
      EscapeDecodes(t.value);
    }
  }

  lemma {:induction false} EscapeDecodes(value: string)
    ensures Decode(Escape(value)) == Some(value)
    decreases |value|
  {
    if value != [] {
      var n := EscapedLength(value[0]);
      EscapeDecodes(value[1..]);
      assert Escape(value)[n..] == Escape(value[1..]) && value == [value[0]] + value[1..];
    }
  }

  lemma {:induction false} RemarksLaid(ts: seq<Token>, remarks: seq<Option<string>>, spaced: bool)
    requires |remarks| == |ts| && AllLegal(ts) && (forall r :: r in remarks ==> OneLine(r)) && EndsInNewline(ts)
    ensures Readable(LaidWith(ts, remarks, spaced), []) && TokensOf(LaidWith(ts, remarks, spaced)) == ts
    ensures FreeText(LaidWith(ts, remarks, spaced), []) == (if spaced then " " else "") + Remarked(ts, remarks)
    decreases |ts|
  {
    hide Legal, Spelling, GapFor, Remark, FreeText, Readable, GapStands, Stops, Written, SpellGap;
    FirstAndRest(ts);
    var t, more := ts[0], ts[0].typ != Newline;
    var rest, others := LaidWith(ts[1..], remarks[1..], more), Remarked(ts[1..], remarks[1..]);
    assert remarks[0] in remarks;
    if |ts| > 1 {
      RemarksLaid(ts[1..], remarks[1..], more);
    } else {
      NothingLaid();
    }
    assert FreeText(rest, []) == (if more then " " else "") + others;
    RemarkStands(spaced, t, remarks[0], FreeText(rest, []));
    SpaceStops(t, others);
    assert "" + others == others;
    ReadsSome(t);
    LaidCons(Laid(GapFor(spaced, t, remarks[0]), t, Spelling(t)), rest, []);
    GroupRemark(if spaced then " " else "", if t.typ == Newline then Remark(remarks[0]) else [], Spelling(t), if more then " " else "", others);
  }

  lemma {:induction false} NothingLaid()
    ensures FreeText([], []) == [] && Readable([], []) && TokensOf([]) == []
  {}

  lemma {:induction false} LaidCons(l: Laid, rest: seq<Laid>, last: seq<Piece>)
    ensures FreeText([l] + rest, last) == SpellGap(l.gap) + (l.written + FreeText(rest, last))
    ensures TokensOf([l] + rest) == [l.token] + TokensOf(rest)
    ensures var behind := FreeText(rest, last);
            GapStands(l.gap, l.written + behind) && Written(l.token, l.written) && Stops(behind, l.token) && Readable(rest, last)
            ==> Readable([l] + rest, last)
  {
    hide GapStands, Written, Stops;
    assert ([l] + rest)[1..] == rest;
  }

  lemma {:induction false} GroupRemark(a: string, b: string, c: string, d: string, e: string)
    ensures a + b + (c + (d + e)) == a + (b + c + d + e)
  {}

  lemma {:induction false} SpaceStops(t: Token, rest: string)
    ensures Stops(" " + rest, t) && (t.typ == Newline ==> Stops(rest, t))
  {}

  // A remark in front of any newline of a printed text changes nothing.
  lemma {:induction false} RemarksIgnored(ts: seq<Token>, remarks: seq<Option<string>>)
    requires |remarks| == |ts| && AllLegal(ts) && (forall r :: r in remarks ==> OneLine(r)) && EndsInNewline(ts)
    ensures Tokens(Remarked(ts, remarks), 0) == Some(ts) == Tokens(Printed(ts), 0)
  {
    hide AllLegal, OneLine, Tokens, Remarked, Printed;
    RemarksLaid(ts, remarks, false);
    assert "" + Remarked(ts, remarks) == Remarked(ts, remarks);
    FreeLayout(LaidWith(ts, remarks, false), []);
    assert ts + [] == ts;
    AllOf(ts);
    LexerRoundTrip(ts);
  }

  lemma {:induction false} AllOf(ts: seq<Token>)
    requires AllLegal(ts)
    ensures forall t :: t in ts ==> Legal(t)
  {}
}
