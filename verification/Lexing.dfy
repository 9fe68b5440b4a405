/**
  The lexer (lib/Lexer): the token at an index of the text, and the class that
  walks over the text one character at a time.
 */
module Lexing {
  import opened Wrappers

  datatype TokenType =
    | NoToken
    | Identifier
    | If | Else | Elif | Return
    | LeftParenthesis | RightParenthesis | LeftCurlyBrace | RightCurlyBrace | LeftBracket | RightBracket | Comma | Newline
    | IntType | SInt32Type | UInt32Type | BoolType | StringType | CharType
    | Plus | Minus | Or | And | Equal | Star | Ampersand
    | IntegerLiteral | StringLiteral
    | EndOfFile

  datatype Token = Token(typ: TokenType, value: string)

  const END_OF_FILE := Token(EndOfFile, "")

  const NEWLINE := Token(Newline, "")

  const NUL: char := '\0'

  function Reserved(word: string): Option<TokenType> {
    match word
    case "if" => Some(If)
    case "else" => Some(Else)
    case "elif" => Some(Elif)
    case "return" => Some(Return)
    case "or" => Some(Or)
    case "and" => Some(And)
    case "int" => Some(IntType)
    case "sint32" => Some(SInt32Type)
    case "uint32" => Some(UInt32Type)
    case "bool" => Some(BoolType)
    case "string" => Some(StringType)
    case "char" => Some(CharType)
    case _ => None
  }

  function Separator(c: char): Option<TokenType> {
    match c
    case '(' => Some(LeftParenthesis)
    case ')' => Some(RightParenthesis)
    case '{' => Some(LeftCurlyBrace)
    case '}' => Some(RightCurlyBrace)
    case '[' => Some(LeftBracket)
    case ']' => Some(RightBracket)
    case ',' => Some(Comma)
    case '+' => Some(Plus)
    case '-' => Some(Minus)
    case '=' => Some(Equal)
    case '*' => Some(Star)
    case '&' => Some(Ampersand)
    case _ => None
  }

  predicate IsNewline(c: char) { c == '\n' || c == '\r' }

  predicate IsSpace(c: char) { c == ' ' || '\t' <= c <= '\r' }

  predicate IsAlpha(c: char) { 'a' <= c <= 'z' || 'A' <= c <= 'Z' }

  predicate IsDigit(c: char) { '0' <= c <= '9' }

  predicate IsAlnum(c: char) { IsAlpha(c) || IsDigit(c) }

  predicate IsNumeral(c: char) { IsDigit(c) || c == '.' }

  // The end of the run of characters from i that satisfy p.
  function RunEnd(input: string, i: nat, p: char -> bool): (r: nat)
    requires i <= |input|
    ensures i <= r <= |input| && (forall k :: i <= k < r ==> p(input[k])) && (r < |input| ==> !p(input[r]))
    decreases |input| - i
  {
    if i < |input| && p(input[i]) then RunEnd(input, i + 1, p) else i
  }

  // The end of a block comment.
  predicate Closes(input: string, k: nat) { k + 1 < |input| && input[k] == '*' && input[k + 1] == '/' }

  // The first end of a block comment from i, or the end of the text. It
  // stands on the closing slash.
  function BlockEnd(input: string, i: nat): (r: nat)
    requires i <= |input|
    ensures i <= r <= |input|
    ensures if r < |input| then i < r && Closes(input, r - 1) else forall k :: i <= k ==> !Closes(input, k)
    ensures forall k :: i <= k < r - 1 ==> !Closes(input, k)
    decreases |input| - i
  {
    if i >= |input| then i
    else if input[i] == '*' && i + 1 < |input| && input[i + 1] == '/' then i + 1
    else BlockEnd(input, i + 1)
  }

  predicate Begins(input: string, i: nat, c: char) { i + 1 < |input| && input[i + 1] == c }

  // Where scanning goes on after the slash at i: at the first line end behind
  // two slashes, at the slash of the first `*/` behind the slash of `/*`, or
  // behind a slash on its own.
  function CommentEnd(input: string, i: nat): (r: nat)
    requires i < |input|
    ensures i < r <= |input|
    ensures Begins(input, i, '/') ==> (forall k :: i < k < r ==> !IsNewline(input[k])) && (r < |input| ==> IsNewline(input[r]))
    ensures Begins(input, i, '*') ==>
              && (forall k :: i < k < r - 1 ==> !Closes(input, k))
              && if r < |input| then i + 1 < r && Closes(input, r - 1) else forall k :: i < k ==> !Closes(input, k)
    ensures !Begins(input, i, '/') && !Begins(input, i, '*') ==> r == i + 1
  {
    if i + 1 < |input| && input[i + 1] == '*' then BlockEnd(input, i + 1)
    else if i + 1 < |input| && input[i + 1] == '/' then RunEnd(input, i + 1, c => !IsNewline(c))
    else i + 1
  }

  // The rest of a string literal whose last read character is at i: its value
  // and the index behind the closing quote. None when no quote closes it, in
  // which case the lexer never returns.
  function StringFrom(input: string, i: nat, value: string): (r: Option<(string, nat)>)
    requires i < |input|
    ensures r.Some? ==> i < r.value.1 <= |input|
    decreases |input| - i
  {
    if i + 1 >= |input| then None
    else if input[i + 1] == '\\' then
      if i + 2 >= |input| then None else StringFrom(input, i + 2, value + [input[i + 2]])
    else if input[i + 1] == '"' then Some((value, i + 2))
    else StringFrom(input, i + 1, value + [input[i + 1]])
  }

  function WordToken(word: string): Token {
    var t := Reserved(word);
    if t.Some? then Token(t.value, "") else Token(Identifier, word)
  }

  // The token at index i and the index behind it. A blank that ends the text
  // is followed by the terminator of the string, which is no end of file.
  function NextToken(input: string, i: nat): (r: Option<(Token, nat)>)
    requires i <= |input|
    ensures r.Some? ==> if r.value.0 == END_OF_FILE then r.value.1 == |input| else i < r.value.1 <= |input|
    decreases |input| - i
  {
    if i == |input| then Some((END_OF_FILE, i))
    else
      var c := input[i];
      if IsNewline(c) then Some((NEWLINE, i + 1))
      else if IsSpace(c) then
        if i + 1 == |input| then Some((Token(NoToken, [NUL]), i + 1)) else NextToken(input, i + 1)
      else if IsAlpha(c) then
        var end := RunEnd(input, i + 1, IsAlnum);
        Some((WordToken(input[i..end]), end))
      else if IsDigit(c) then
        var end := RunEnd(input, i + 1, IsNumeral);
        Some((Token(IntegerLiteral, input[i..end]), end))
      else if c == '"' then
        var (value, end) :- StringFrom(input, i, "");
        Some((Token(StringLiteral, value), end))
      else if c == '/' then NextToken(input, CommentEnd(input, i))
      else if Separator(c).Some? then Some((Token(Separator(c).value, ""), i + 1))
      else Some((Token(NoToken, [c]), i + 1))
  }

  // Every token up to the end of file; None when a string is not closed.
  function Tokens(input: string, i: nat): Option<seq<Token>>
    requires i <= |input|
    decreases |input| - i
  {
    var (t, j) :- NextToken(input, i);
    if t == END_OF_FILE then Some([])
    else
      var others :- Tokens(input, j);
      Some([t] + others)
  }

  function FirstNotNewline(ts: seq<Token>): Token {
    if ts == [] then END_OF_FILE
    else if ts[0].typ == Newline then FirstNotNewline(ts[1..])
    else ts[0]
  }

  // ----- the class -----

  class Lexer {
    const input: string
    var index: nat
    // None is the end of file.
    var currentChar: Option<char>
    var currentToken: Token

    constructor (input: string)
      ensures this.input == input && index == 0 && currentToken == Token(NoToken, "")
    {
      this.input, index, currentChar, currentToken := input, 0, Some(' '), Token(NoToken, "");
    }

    ghost predicate Valid()
      reads this
    {
      index <= |input|
    }

    // The terminator follows the last character.
    function CharAt(i: nat): char {
      if i < |input| then input[i] else NUL
    }

    function GetCurrent(): Option<char>
      reads this
    {
      if index >= |input| then None else Some(input[index])
    }

    function LookAhead(): Option<char>
      reads this
    {
      if index >= |input| then None else Some(CharAt(index + 1))
    }

    method GetNext() returns (c: Option<char>)
      requires Valid()
      modifies this`index
      ensures Valid() && index == old(if index >= |input| then index else index + 1)
      ensures c == if old(index) >= |input| then None else Some(CharAt(index))
    {
      if index >= |input| {
        return None;
      }
      index := index + 1;
      c := Some(CharAt(index));
    }

    // The character under the index, as the readers keep it.
    ghost predicate Reading()
      reads this
    {
      Valid() && (index < |input| ==> currentChar == Some(input[index])) && (index == |input| ==> currentChar == None || currentChar == Some(NUL))
    }

    method GetReservedOrIdentifier() returns (token: Token)
      requires Reading() && index < |input| && IsAlpha(input[index])
      modifies this`index, this`currentChar
      ensures Valid() && index == RunEnd(input, old(index) + 1, IsAlnum) && token == WordToken(input[old(index)..index])
    {
      ghost var start := index;
      var value := [currentChar.value];
      currentChar := GetNext();
      while currentChar.Some? && IsAlnum(currentChar.value)
        invariant Reading() && start < index && value == input[start..index]
        invariant RunEnd(input, index, IsAlnum) == RunEnd(input, start + 1, IsAlnum)
        decreases |input| - index
      {
        assert input[start..index + 1] == input[start..index] + [input[index]];
        value := value + [currentChar.value];
        currentChar := GetNext();
      }
      token := WordToken(value);
    }

    method GetNumber() returns (token: Token)
      requires Reading() && index < |input| && IsDigit(input[index])
      modifies this`index, this`currentChar
      ensures Valid() && index == RunEnd(input, old(index) + 1, IsNumeral) && token == Token(IntegerLiteral, input[old(index)..index])
    {
      ghost var start := index;
      var value := [currentChar.value];
      currentChar := GetNext();
      while currentChar.Some? && IsNumeral(currentChar.value)
        invariant Reading() && start < index && value == input[start..index]
        invariant RunEnd(input, index, IsNumeral) == RunEnd(input, start + 1, IsNumeral)
        decreases |input| - index
      {
        assert input[start..index + 1] == input[start..index] + [input[index]];
        value := value + [currentChar.value];
        currentChar := GetNext();
      }
      token := Token(IntegerLiteral, value);
    }

    method SkipComment()
      requires Reading() && index < |input| && input[index] == '/'
      modifies this`index, this`currentChar
      ensures Valid() && index == CommentEnd(input, old(index))
    {
      var ahead := LookAhead();
      if ahead == Some('*') {
        ghost var start := index + 1;
        currentChar := GetNext();
        while currentChar != None
          invariant Reading() && start <= index && BlockEnd(input, index) == BlockEnd(input, start)
          decreases |input| - index, if currentChar.Some? then 1 else 0
        {
          ahead := LookAhead();
          if currentChar == Some('*') && ahead == Some('/') {
            currentChar := GetNext();
            break;
          }
          currentChar := GetNext();
        }
      } else if ahead == Some('/') {
        ghost var start := index + 1;
        currentChar := GetNext();
        while currentChar != None && !IsNewline(currentChar.value)
          invariant Reading() && start <= index
          invariant RunEnd(input, index, c => !IsNewline(c)) == RunEnd(input, start, c => !IsNewline(c))
          decreases |input| - index, if currentChar.Some? then 1 else 0
        {
          currentChar := GetNext();
        }
      } else {
        currentChar := GetNext();
      }
    }

    method GetStringLiteral() returns (token: Token)
      requires Reading() && index < |input| && StringFrom(input, index, "").Some?
      modifies this`index, this`currentChar
      ensures Valid() && StringFrom(input, old(index), "") == Some((token.value, index)) && token.typ == StringLiteral
    {
      ghost var start := index;
      var value, closed := "", false;
      while !closed
        invariant Valid() && index < |input| && start <= index
        invariant !closed ==> StringFrom(input, index, value) == StringFrom(input, start, "")
        invariant closed ==> StringFrom(input, start, "") == Some((value, index + 1))
        decreases |input| - index, !closed
      {
        currentChar := GetNext();
        if currentChar == Some('\\') {
          var escaped := GetNext();
          value := value + [escaped.value];
        } else if currentChar == Some('"') {
          closed := true;
        } else {
          value := value + [currentChar.value];
        }
      }
      currentChar := GetNext();
      token := Token(StringLiteral, value);
    }

    // One token; every string ahead must be closed.
    method GetNextToken() returns (token: Token)
      requires Valid() && NextToken(input, index).Some?
      modifies this`index, this`currentChar
      ensures Valid() && NextToken(input, old(index)) == Some((token, index))
      decreases |input| - index
    {
      ghost var start := index;
      currentChar := GetCurrent();
      while currentChar.Some? && IsSpace(currentChar.value)
        invariant Reading() && start <= index
        invariant index < |input| ==> NextToken(input, index) == NextToken(input, start)
        invariant index == |input| ==>
                    NextToken(input, start) == Some((if currentChar == None then END_OF_FILE else Token(NoToken, [NUL]), index))
        decreases |input| - index
      {
        if IsNewline(currentChar.value) {
          token := NEWLINE;
          currentChar := GetNext();
          return;
        }
        currentChar := GetNext();
      }
      if currentChar == None {
        return END_OF_FILE;
      }
      var c := currentChar.value;
      if IsAlpha(c) {
        token := GetReservedOrIdentifier();
      } else if IsDigit(c) {
        token := GetNumber();
      } else if c == '"' {
        token := GetStringLiteral();
      } else if c == '/' {
        SkipComment();
        token := GetNextToken();
      } else {
        token := if Separator(c).Some? then Token(Separator(c).value, "") else Token(NoToken, [c]);
        currentChar := GetNext();
      }
    }

    // The tokens behind the current one.
    ghost predicate Closed()
      reads this
    {
      Valid() && Tokens(input, index).Some?
    }

    method GenerateNextToken() returns (token: Token)
      requires Closed()
      modifies this`index, this`currentChar, this`currentToken
      ensures Closed() && token == currentToken && NextToken(input, old(index)) == Some((token, index))
      ensures var ts := old(Tokens(input, index).value);
              if ts == [] then currentToken == END_OF_FILE && Tokens(input, index) == Some([])
              else currentToken == ts[0] && Tokens(input, index) == Some(ts[1..])
    {
      token := GetNextToken();
      currentToken := token;
    }

    method LookaheadToken() returns (token: Token)
      requires Closed()
      modifies this`index, this`currentChar
      ensures index == old(index)
      ensures var ts := Tokens(input, index).value; token == if ts == [] then END_OF_FILE else ts[0]
    {
      var startIndex := index;
      token := GetNextToken();
      index := startIndex;
    }

    method LookaheadTokenNotNewline() returns (token: Token)
      requires Closed()
      modifies this`index, this`currentChar
      ensures index == old(index)
      ensures token == FirstNotNewline(Tokens(input, index).value)
    {
      var startIndex := index;
      ghost var ts := Tokens(input, index).value;
      token := GetNextToken();
      while token.typ == Newline
        invariant Closed()
        invariant if token == END_OF_FILE then Tokens(input, index) == Some([]) && FirstNotNewline(ts) == END_OF_FILE
                  else FirstNotNewline(ts) == FirstNotNewline([token] + Tokens(input, index).value)
        decreases |input| - index, if token.typ == Newline then 1 else 0
      {
        assert ([token] + Tokens(input, index).value)[1..] == Tokens(input, index).value;
        token := GetNextToken();
      }
      index := startIndex;
    }

    // Goes back to the character before newIndex and reads on from there.
    method RestartFromIndex(newIndex: nat)
      requires newIndex <= |input| && Tokens(input, if newIndex < 1 then 0 else newIndex - 1).Some?
      modifies this`index, this`currentChar, this`currentToken
      ensures Closed() && NextToken(input, if newIndex < 1 then 0 else newIndex - 1) == Some((currentToken, index))
    {
      var start := if newIndex < 1 then 1 else newIndex;
      index := start - 1;
      var token := GetNextToken();
      currentToken := token;
    }
  }
}
