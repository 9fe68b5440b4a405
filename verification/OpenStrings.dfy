/**
  The loop that reads a string literal (lib/Lexer/Lexer.cpp), turn by turn. It
  has no limit: past the end of the text it goes on reading the end of file.
 */
module OpenStrings {
  import opened Wrappers
  import opened Lexing

  // What the end of file, -1, becomes as a character of the value.
  const END_CHAR: char := 255 as char

  datatype Reader = Reader(index: nat, value: string, closed: bool)

  // The next character and the index then; at the end the index stays.
  function Next(input: string, i: nat): (r: (Option<char>, nat))
    requires i <= |input|
    ensures r.1 <= |input|
  {
    if i == |input| then (None, i) else if i + 1 < |input| then (Some(input[i + 1]), i + 1) else (Some(NUL), i + 1)
  }

  function Taken(c: Option<char>): string { [c.GetOr(END_CHAR)] }

  function Turn(input: string, r: Reader): (r': Reader)
    requires r.index <= |input|
    ensures r'.index <= |input|
  {
    if r.closed then r
    else
      var (c, i) := Next(input, r.index);
      if c == Some('\\') then
        var (escaped, j) := Next(input, i);
        Reader(j, r.value + Taken(escaped), false)
      else if c == Some('"') then Reader(i, r.value, true)
      else Reader(i, r.value + Taken(c), false)
  }

  function Turns(input: string, r: Reader, n: nat): (r': Reader)
    requires r.index <= |input|
    ensures r'.index <= |input|
    decreases n
  {
    if n == 0 then r else Turns(input, Turn(input, r), n - 1)
  }

  // Nothing ahead closes the string.
  predicate Open(input: string, r: Reader) {
    !r.closed && (r.index == |input| || (r.index < |input| && StringFrom(input, r.index, r.value) == None))
  }

  lemma {:induction false} OpenStays(input: string, r: Reader, n: nat)
    requires r.index <= |input| && Open(input, r)
    ensures Open(input, Turns(input, r, n))
    decreases n
  {
    if n > 0 {
      OpenTurn(input, r);
      OpenStays(input, Turn(input, r), n - 1);
    }
  }

  lemma {:induction false} OpenTurn(input: string, r: Reader)
    requires r.index <= |input| && Open(input, r)
    ensures Open(input, Turn(input, r))
  {}

  lemma {:induction false} Closes(input: string, r: Reader) returns (n: nat)
    requires r.index < |input| && !r.closed && StringFrom(input, r.index, r.value).Some?
    ensures var (value, end) := StringFrom(input, r.index, r.value).value; Turns(input, r, n) == Reader(end - 1, value, true)
    decreases |input| - r.index
  {
    var next := Turn(input, r);
    if next.closed {
      n := 1;
      assert Turns(input, next, 0) == next;
    } else {
      n := Closes(input, next);
      n := n + 1;
    }
  }

  // The loop ends exactly when a quote closes the string.
  lemma {:induction false} ClosesExactly(input: string, i: nat)
    requires i < |input|
    ensures StringFrom(input, i, "").Some? <==> exists n: nat :: Turns(input, Reader(i, "", false), n).closed
  {
    var r := Reader(i, "", false);
    if StringFrom(input, i, "").Some? {
      var n := Closes(input, r);
      assert Turns(input, r, n).closed;
    } else {
      forall n: nat ensures !Turns(input, r, n).closed {
        OpenStays(input, r, n);
      }
    }
  }
}
