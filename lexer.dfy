// The lexer of src/lexer/lexer.rs as a class with the struct's fields.
//
// Every method is proved to move the lexer's state exactly as the matching
// function of LexerSpec moves a cursor, so the lemmas proved there about
// `Skip`, `ReadRun`, `ReadStr` and `Scan` hold of the methods too.

module MonkeyLexer {
  import opened Utils
  import opened LexerSpec

  class Lexer {
    /** The program text. */
    const input: seq<char>
    /** The character under the cursor as a string of zero or one
        characters; the empty string marks the end of the input. */
    var currentChar: seq<char>
    var pos: int
    var readPos: int
    var line: nat
    var column: nat

    /** `read_pos` runs one ahead of `pos`, and `current_char` is the
        character at index `pos - 1` (`get_char(pos - 1)`). */
    ghost predicate Valid()
      reads this
    {
      1 <= pos && readPos == pos + 1 && currentChar == CharAt(input, pos - 1)
    }

    /** The lexer's position as a cursor of the specification. */
    function State(): Cursor
      reads this
    {
      Cursor(pos, line, column)
    }

    /** `new`: the fields start at pos 0, read_pos 1, line 1, column 0, and
        the first character is read at once. */
    constructor (input: seq<char>)
      ensures Valid() && this.input == input
      ensures State() == New() && pos == 1 && readPos == 2 && line == 1 && column == 1
      ensures currentChar == (if input == [] then [] else [input[0]])
    {
      this.input := input;
      currentChar := [];
      pos := 0;
      readPos := 1;
      line := 1;
      column := 0;
      new;
      ReadChar();
    }

    /** `read_char`: the character at `pos` becomes current, and `pos`,
        `read_pos` and `column` move on by one. */
    method ReadChar()
      requires 0 <= pos && readPos == pos + 1
      modifies this
      ensures Valid() && State() == Advance(old(State()))
      ensures currentChar == CharAt(input, old(pos))
    {
      currentChar := GetChar(pos);
      pos := readPos;
      column := column + 1;
      readPos := readPos + 1;
    }

    /** `get_char`: the character at index `p` as a one-character string,
        or the empty string when `p` is outside the input. */
    function GetChar(p: int): (r: seq<char>)
      ensures |r| <= 1 && (r == [] <==> !(0 <= p < |input|))
      ensures r != [] ==> r[0] == input[p]
    {
      CharAt(input, p)
    }

    /** `peek_char`: the character `read_char` would make current next; at
        the end of the input it stays empty. */
    function PeekChar(): (r: seq<char>)
      reads this
      requires Valid()
      ensures r == Current(input, Advance(State()))
      ensures currentChar == [] ==> r == []
    {
      GetChar(readPos - 1)
    }

    /** `skip_whitespace`: while the current character is whitespace, count
        a newline (line up by one, column back to 0) and read on. */
    method SkipWhitespace()
      requires Valid()
      modifies this
      ensures Valid() && State() == Skip(input, old(State()))
    {
      ghost var c := State();
      while EndsInWhitespace(currentChar)
        invariant Valid()
        invariant Skip(input, State()) == Skip(input, c)
        decreases |input| + 1 - pos
      {
        if EndsInNewline(currentChar) {
          column := 0;
          line := line + 1;
        }
        ReadChar();
      }
    }

    /** `read_identifier`: read while the current character is a letter and
        return the characters read. The source slices the input from
        `pos - 1`, which must not lie past its end. */
    method ReadIdentifier() returns (s: seq<char>)
      requires Valid() && pos <= |input| + 1
      modifies this
      ensures Valid() && (s, State()) == ReadRun(input, old(State()), IsLetter)
    {
      IsLetterEmpty();
      var start := pos - 1;
      while IsLetter(currentChar)
        invariant Valid() && old(pos) <= pos <= |input| + 1
        invariant line == old(line) && column == old(column) + (pos - old(pos))
        invariant RunEnd(input, pos - 1, IsLetter) == RunEnd(input, start, IsLetter)
        decreases |input| + 1 - pos
      {
        ReadChar();
      }
      var end := pos - 1;
      s := input[start..end];
    }

    /** `read_digit`: read while the current character is a decimal digit
        and return the characters read. */
    method ReadDigit() returns (s: seq<char>)
      requires Valid() && pos <= |input| + 1
      modifies this
      ensures Valid() && (s, State()) == ReadRun(input, old(State()), IsDigit)
    {
      IsDigitExactly([]);
      var start := pos - 1;
      while IsDigit(currentChar)
        invariant Valid() && old(pos) <= pos <= |input| + 1
        invariant line == old(line) && column == old(column) + (pos - old(pos))
        invariant RunEnd(input, pos - 1, IsDigit) == RunEnd(input, start, IsDigit)
        decreases |input| + 1 - pos
      {
        ReadChar();
      }
      var end := pos - 1;
      s := input[start..end];
    }

    /** `read_string`: read past the opening quote, read up to the next
        double quote, read past it, and return what lay between. The loop
        ends only if a double quote follows, so that is required. */
    method ReadString() returns (s: seq<char>)
      requires Valid() && QuoteFrom(input, pos)
      modifies this
      ensures Valid() && (s, State()) == ReadStr(input, old(State()))
    {
      ghost var c := State();
      ReadChar();
      var start := pos - 1;
      ghost var q := QuoteEnd(input, start);
      while currentChar != "\""
        invariant Valid() && start <= pos - 1 <= q
        invariant line == c.line && column == c.column + (pos - c.pos)
        decreases q - (pos - 1)
      {
        ReadChar();
      }
      QuoteEndFirst(input, start, pos - 1);
      var end := pos - 1;
      ReadChar();
      s := input[start..end];
    }

    /** `next_token`: skip whitespace, remember the column, and dispatch on
        the current character. */
    method NextToken() returns (t: Token)
      requires Valid() && ScanDefined(input, State())
      modifies this
      ensures Valid() && (t, State()) == Scan(input, old(State()))
    {
      IsLetterEmpty();
      IsDigitExactly([]);
      SkipWhitespace();
      var cur := currentChar;
      var startPos := column;
      var isString := cur == "\"";
      var s;
      if IsLetter(cur) {
        s := ReadIdentifier();
      } else if IsDigit(cur) {
        s := ReadDigit();
      } else if cur == "\"" {
        s := ReadString();
      } else if cur == "=" && PeekChar() == "=" {
        ReadChar();
        ReadChar();
        s := cur + "=";
      } else if cur == "!" && PeekChar() == "=" {
        ReadChar();
        ReadChar();
        s := cur + "=";
      } else {
        ReadChar();
        s := cur;
      }
      t := Token(s, isString, line, startPos);
    }
  }

  /** A fresh lexer on `input`, asked for `n` tokens one after the other, as
      the source's tests do. */
  method Run(input: seq<char>, n: nat) returns (ts: seq<Token>)
    requires Lexable(input, New())
    ensures ts == Tokens(input, New(), n)
  {
    var l := new Lexer(input);
    ts := [];
    var i := 0;
    while i < n
      invariant 0 <= i <= n && fresh(l)
      invariant l.Valid() && l.input == input
      invariant l.State() == Walk(input, New(), i)
      invariant ts == Tokens(input, New(), i)
    {
      LexableNext(input, l.State());
      TokensSnoc(input, New(), i);
      WalkSnoc(input, New(), i);
      var t := l.NextToken();
      ts := ts + [t];
      i := i + 1;
    }
  }
}
