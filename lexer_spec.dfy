// The Monkey lexer (src/lexer/lexer.rs) as state transitions on values.
//
// The lexer's mutable state is determined by three numbers: `pos` (the
// index one past the current character; `read_pos` is always `pos + 1` and
// `current_char` is always the character at `pos - 1`), `line` and `column`.
// Each scanner of the lexer is given here as a function from the input and
// one such cursor to what the scanner returns and the cursor it leaves;
// the class in lexer.dfy is proved to follow these functions step by step,
// and the lemmas below say what they mean.

module LexerSpec {
  import opened Utils

  /** `pos`, `line` and `column` of the lexer; `read_pos` is `pos + 1`. */
  datatype Cursor = Cursor(pos: int, line: nat, column: nat)

  /** The arguments `next_token` hands to `Token::new`: the literal, whether
      it was a string literal, the line after scanning, the start column. */
  datatype Token = Token(literal: seq<char>, isString: bool, line: nat, column: nat)

  /** `get_char`: the character at index `i` as a one-character string, or
      the empty string (the end-of-input sentinel) outside the input. */
  function CharAt(input: seq<char>, i: int): seq<char> {
    if 0 <= i < |input| then [input[i]] else []
  }

  /** `current_char` of a lexer at cursor `c`. */
  function Current(input: seq<char>, c: Cursor): seq<char> {
    CharAt(input, c.pos - 1)
  }

  /** `read_char`: one step of the cursor, one column to the right. */
  function Advance(c: Cursor): Cursor {
    Cursor(c.pos + 1, c.line, c.column + 1)
  }

  /** The cursor `new` leaves: the fields start at pos 0, line 1, column 0
      and the first character is read at once. */
  function New(): Cursor {
    Advance(Cursor(0, 1, 0))
  }

  /** The test `skip_whitespace` makes on the last character of `current_char`. */
  predicate EndsInWhitespace(s: seq<char>) {
    s != [] && IsWhitespace(s[|s| - 1])
  }

  predicate EndsInNewline(s: seq<char>) {
    s != [] && s[|s| - 1] == '\n'
  }

  /** `skip_whitespace`: on a newline, column to 0 and line up by one; on any
      whitespace, read a character and start again. */
  function Skip(input: seq<char>, c: Cursor): (r: Cursor)
    decreases |input| + 1 - c.pos
    ensures c.pos <= r.pos && (c.pos <= |input| + 1 ==> r.pos <= |input| + 1)
    ensures c.line <= r.line
    ensures !EndsInWhitespace(Current(input, r))
  {
    var cur := Current(input, c);
    var c1 := if EndsInNewline(cur) then c.(line := c.line + 1, column := 0) else c;
    if EndsInWhitespace(cur) then Skip(input, Advance(c1)) else c1
  }

  /** Number of newlines in `s`. */
  function Newlines(s: seq<char>): nat {
    if s == [] then 0 else (if s[0] == '\n' then 1 else 0) + Newlines(s[1..])
  }

  /** The column after reading `s` from column `col`: every character moves
      one column right, and a newline first sets the column back to 0. */
  function ColumnAfter(col: nat, s: seq<char>): nat
    decreases |s|
  {
    if s == [] then col else ColumnAfter((if s[0] == '\n' then 0 else col) + 1, s[1..])
  }

  /** Reading characters without a newline moves the column by their number. */
  lemma {:induction false} ColumnWithoutNewline(col: nat, s: seq<char>)
    requires '\n' !in s
    ensures ColumnAfter(col, s) == col + |s|
    decreases |s|
  {
    if s != [] {
      ColumnWithoutNewline(col + 1, s[1..]);
    }
  }

  /** After a newline at index `j` and no newline later, the column is one
      plus the number of characters after that newline. */
  lemma {:induction false} ColumnAfterLastNewline(col: nat, s: seq<char>, j: nat)
    requires j < |s| && s[j] == '\n' && '\n' !in s[j + 1..]
    ensures ColumnAfter(col, s) == 1 + (|s| - 1 - j)
    decreases |s|
  {
    var next := (if s[0] == '\n' then 0 else col) + 1;
    if j == 0 {
      ColumnWithoutNewline(next, s[1..]);
    } else {
      assert s[1..][j..] == s[j + 1..];
      ColumnAfterLastNewline(next, s[1..], j - 1);
    }
  }

  /** Everything `skip_whitespace` passes over is whitespace. */
  lemma {:induction false} SkipRun(input: seq<char>, c: Cursor)
    requires 1 <= c.pos <= |input| + 1
    ensures forall k | c.pos - 1 <= k < Skip(input, c).pos - 1 :: IsWhitespace(input[k])
    decreases |input| + 1 - c.pos
  {
    var cur := Current(input, c);
    if EndsInWhitespace(cur) {
      var c1 := if EndsInNewline(cur) then c.(line := c.line + 1, column := 0) else c;
      assert Skip(input, c) == Skip(input, Advance(c1));
      SkipRun(input, Advance(c1));
      assert cur == [input[c.pos - 1]];
    }
  }

  /** `skip_whitespace` adds the number of newlines it passes over to `line`. */
  lemma {:induction false} SkipLines(input: seq<char>, c: Cursor)
    requires 1 <= c.pos <= |input| + 1
    ensures var r := Skip(input, c); r.line == c.line + Newlines(input[c.pos - 1 .. r.pos - 1])
    decreases |input| + 1 - c.pos
  {
    var cur := Current(input, c);
    if EndsInWhitespace(cur) {
      var c1 := if EndsInNewline(cur) then c.(line := c.line + 1, column := 0) else c;
      var r := Skip(input, Advance(c1));
      assert Skip(input, c) == r;
      SkipLines(input, Advance(c1));
      var run := input[c.pos - 1 .. r.pos - 1];
      assert run[1..] == input[c.pos .. r.pos - 1];
      assert Newlines(run) == (if run[0] == '\n' then 1 else 0) + Newlines(run[1..]);
      assert c1.line == c.line + (if run[0] == '\n' then 1 else 0);
    } else {
      assert Skip(input, c) == c;
    }
  }

  /** `skip_whitespace` moves `column` as reading what it passes over does. */
  lemma {:induction false} SkipColumns(input: seq<char>, c: Cursor)
    requires 1 <= c.pos <= |input| + 1
    ensures var r := Skip(input, c); r.column == ColumnAfter(c.column, input[c.pos - 1 .. r.pos - 1])
    decreases |input| + 1 - c.pos
  {
    var cur := Current(input, c);
    if EndsInWhitespace(cur) {
      var c1 := if EndsInNewline(cur) then c.(line := c.line + 1, column := 0) else c;
      var r := Skip(input, Advance(c1));
      assert Skip(input, c) == r;
      SkipColumns(input, Advance(c1));
      var run := input[c.pos - 1 .. r.pos - 1];
      assert run[1..] == input[c.pos .. r.pos - 1];
      assert run[0] == input[c.pos - 1] && cur == [input[c.pos - 1]];
      assert ColumnAfter(c.column, run) == ColumnAfter(c1.column + 1, run[1..]);
    } else {
      assert Skip(input, c) == c;
    }
  }

  /** What `skip_whitespace` does, for a lexer whose `pos - 1` is at most the
      input length: it passes over a run of whitespace `input[pos - 1 .. r.pos - 1]`,
      stops on a character that is not whitespace (or at end of input), adds
      the number of newlines in the run to `line`, and moves `column` as
      reading that run does. */
  lemma SkipAccounting(input: seq<char>, c: Cursor)
    requires 1 <= c.pos <= |input| + 1
    ensures var r := Skip(input, c);
      r.pos <= |input| + 1 &&
      (forall k | c.pos - 1 <= k < r.pos - 1 :: IsWhitespace(input[k])) &&
      r.line == c.line + Newlines(input[c.pos - 1 .. r.pos - 1]) &&
      r.column == ColumnAfter(c.column, input[c.pos - 1 .. r.pos - 1])
  {
    SkipRun(input, c);
    SkipLines(input, c);
    SkipColumns(input, c);
  }

  /** The whitespace accounting in closed form: the line grows by the
      newlines skipped; with no newline skipped the column grows by the
      number of characters skipped, and otherwise it is one plus the number
      of characters after the last newline. */
  lemma SkipLineAndColumn(input: seq<char>, c: Cursor)
    requires 1 <= c.pos <= |input| + 1
    ensures var r := Skip(input, c); var run := input[c.pos - 1 .. r.pos - 1];
      r.line == c.line + Newlines(run) &&
      ('\n' !in run ==> r.column == c.column + |run|) &&
      (forall j | 0 <= j < |run| && run[j] == '\n' && '\n' !in run[j + 1..] ::
        r.column == |run| - j)
  {
    var r := Skip(input, c);
    var run := input[c.pos - 1 .. r.pos - 1];
    SkipAccounting(input, c);
    if '\n' !in run {
      ColumnWithoutNewline(c.column, run);
    }
    forall j | 0 <= j < |run| && run[j] == '\n' && '\n' !in run[j + 1..]
      ensures r.column == |run| - j
    {
      ColumnAfterLastNewline(c.column, run, j);
    }
  }

  /** The first index at or after `i` whose character fails `p`; the end of
      input counts as failing, since `p` rejects the empty string. */
  function RunEnd(input: seq<char>, i: int, p: seq<char> -> bool): (e: int)
    requires !p([])
    decreases |input| - i
    ensures i <= e && (e == i || (0 <= i && e <= |input|))
    ensures forall k | i <= k < e :: 0 <= k < |input| && p([input[k]])
    ensures !p(CharAt(input, e))
  {
    if p(CharAt(input, i)) then RunEnd(input, i + 1, p) else i
  }

  /** `read_identifier` (with `p` = `is_letter`) and `read_digit` (with `p` =
      `is_digit`): read while the current character passes `p`, then return
      the characters read. */
  function ReadRun(input: seq<char>, c: Cursor, p: seq<char> -> bool): (r: (seq<char>, Cursor))
    requires !p([])
    requires 1 <= c.pos <= |input| + 1
    ensures var (lit, after) := r;
      c.pos <= after.pos <= |input| + 1 &&
      lit == input[c.pos - 1 .. after.pos - 1] &&
      (forall k | 0 <= k < |lit| :: p([lit[k]])) &&
      !p(Current(input, after)) &&
      after.line == c.line && after.column == c.column + |lit|
  {
    var start := c.pos - 1;
    var end := RunEnd(input, start, p);
    (input[start..end], Cursor(end + 1, c.line, c.column + (end - start)))
  }

  /** A double quote occurs at index `i` or later. */
  predicate QuoteFrom(input: seq<char>, i: int) {
    0 <= i <= |input| && exists j | i <= j < |input| :: input[j] == '"'
  }

  /** The index of the first double quote at or after `i`. */
  function QuoteEnd(input: seq<char>, i: int): (q: int)
    requires QuoteFrom(input, i)
    decreases |input| - i
    ensures i <= q < |input| && input[q] == '"'
    ensures forall k | i <= k < q :: input[k] != '"'
  {
    if input[i] == '"' then i else QuoteEnd(input, i + 1)
  }

  /** A double quote between `i` and the first one found from `i` is that one. */
  lemma QuoteEndFirst(input: seq<char>, i: int, j: int)
    requires QuoteFrom(input, i) && i <= j <= QuoteEnd(input, i)
    requires 0 <= j < |input| && input[j] == '"'
    ensures j == QuoteEnd(input, i)
  {
  }

  /** `read_string`: read past the opening quote, read up to the next
      double quote, read past it, and return what lay between. The source
      only ends this loop when a closing quote exists (see README). */
  function ReadStr(input: seq<char>, c: Cursor): (r: (seq<char>, Cursor))
    requires 0 <= c.pos && QuoteFrom(input, c.pos)
    ensures var (lit, after) := r;
      after.pos == c.pos + |lit| + 2 <= |input| + 1 &&
      after.line == c.line && after.column == c.column + |lit| + 2
  {
    var start := Advance(c).pos - 1;
    var end := QuoteEnd(input, start);
    (input[start..end], Cursor(end + 2, c.line, c.column + (end - start) + 2))
  }

  /** The literal `read_string` returns is the text between the opening
      quote and the first double quote after it, which it holds none of. */
  lemma ReadStrLiteral(input: seq<char>, c: Cursor)
    requires 0 <= c.pos && QuoteFrom(input, c.pos)
    ensures var (lit, after) := ReadStr(input, c);
      lit == input[c.pos .. after.pos - 2] && '"' !in lit &&
      input[after.pos - 2] == '"'
  {
  }

  /** `next_token` can run to completion from cursor `c`: if whitespace
      skipping stops on a double quote, a closing quote follows. */
  predicate ScanDefined(input: seq<char>, c: Cursor) {
    var s := Skip(input, c);
    Current(input, s) == "\"" ==> QuoteFrom(input, s.pos)
  }

  /** `next_token`: skip whitespace, remember the column, and dispatch on the
      current character (letter run, digit run, string, `==`, `!=`, or one
      character, which is the empty string at end of input). */
  function Scan(input: seq<char>, c: Cursor): (r: (Token, Cursor))
    requires ScanDefined(input, c)
    ensures c.pos < r.1.pos
    ensures Skip(input, c).line == r.0.line == r.1.line && c.line <= r.1.line
  {
    IsLetterEmpty();
    IsDigitExactly([]);
    var s := Skip(input, c);
    var cur := Current(input, s);
    var isString := cur == "\"";
    var (lit, after) :=
      if IsLetter(cur) then ReadRun(input, s, IsLetter)
      else if IsDigit(cur) then ReadRun(input, s, IsDigit)
      else if cur == "\"" then ReadStr(input, s)
      else if cur == "=" && CharAt(input, s.pos) == "=" then (cur + "=", Advance(Advance(s)))
      else if cur == "!" && CharAt(input, s.pos) == "=" then (cur + "=", Advance(Advance(s)))
      else (cur, Advance(s));
    (Token(lit, isString, after.line, s.column), after)
  }

  /** `==` and `!=` become one token when the peeked character is `=` and
      move the cursor two steps; any other character that starts no longer
      token (a lone `=` or `!` among them) is its own literal and moves the
      cursor one step. The token's column is the column after skipping. */
  lemma ScanOperators(input: seq<char>, c: Cursor)
    requires ScanDefined(input, c)
    ensures var s := Skip(input, c); var cur := Current(input, s); var peek := CharAt(input, s.pos);
      var (t, after) := Scan(input, c);
      t.column == s.column &&
      (cur == "=" && peek == "=" ==> t.literal == "==" && after == Advance(Advance(s)) && !t.isString) &&
      (cur == "!" && peek == "=" ==> t.literal == "!=" && after == Advance(Advance(s)) && !t.isString) &&
      (!IsLetter(cur) && !IsDigit(cur) && cur != "\"" && !(cur in {"=", "!"} && peek == "=") ==>
        t.literal == cur && after == Advance(s) && !t.isString)
  {
  }

  /** A letter starts an identifier: the literal is the longest run of
      letters from the current character, read from the input as is; the
      current character afterwards is no letter, and the line is unchanged. */
  lemma ScanIdentifier(input: seq<char>, c: Cursor)
    requires ScanDefined(input, c)
    requires IsLetter(Current(input, Skip(input, c)))
    ensures var s := Skip(input, c); var (t, after) := Scan(input, c);
      1 <= |t.literal| && !t.isString &&
      t.literal == input[s.pos - 1 .. after.pos - 1] &&
      (forall k | 0 <= k < |t.literal| :: IsLetter([t.literal[k]])) &&
      !IsLetter(Current(input, after)) &&
      after.line == s.line && after.column == s.column + |t.literal|
  {
    IsLetterEmpty();
  }

  /** A digit starts a number: the literal is the longest run of digits from
      the current character; the current character afterwards is no digit. */
  lemma ScanNumber(input: seq<char>, c: Cursor)
    requires ScanDefined(input, c)
    requires IsDigit(Current(input, Skip(input, c)))
    ensures var s := Skip(input, c); var (t, after) := Scan(input, c);
      1 <= |t.literal| && !t.isString &&
      t.literal == input[s.pos - 1 .. after.pos - 1] &&
      (forall k | 0 <= k < |t.literal| :: IsDigit([t.literal[k]])) &&
      !IsDigit(Current(input, after)) &&
      after.line == s.line && after.column == s.column + |t.literal|
  {
    LetterDigitDisjoint(Current(input, Skip(input, c)));
  }

  /** A double quote starts a string: the literal is everything up to the
      next double quote, which is then read too, so that the current
      character is the one after it; the line is not advanced even when the
      string holds newlines. */
  lemma ScanString(input: seq<char>, c: Cursor)
    requires ScanDefined(input, c)
    requires Current(input, Skip(input, c)) == "\""
    ensures var s := Skip(input, c); var (t, after) := Scan(input, c);
      t.isString && '"' !in t.literal &&
      t.literal == input[s.pos .. after.pos - 2] && input[after.pos - 2] == '"' &&
      after.line == s.line && after.column == s.column + |t.literal| + 2
  {
    IsLetterExactly("\"");
    ReadStrLiteral(input, Skip(input, c));
  }

  /** Literal fidelity: unless the input is used up, a token's literal is
      exactly the text the call consumed after whitespace, or for a string
      that text without its two quotes. */
  lemma ScanConsumes(input: seq<char>, c: Cursor)
    requires ScanDefined(input, c)
    requires 0 <= Skip(input, c).pos - 1 < |input|
    ensures var s := Skip(input, c); var (t, after) := Scan(input, c);
      after.pos - 1 <= |input| &&
      input[s.pos - 1 .. after.pos - 1] ==
        if t.isString then "\"" + t.literal + "\"" else t.literal
  {
    var s := Skip(input, c);
    var cur := Current(input, s);
    var (t, after) := Scan(input, c);
    if IsLetter(cur) {
      ScanIdentifier(input, c);
    } else if IsDigit(cur) {
      ScanNumber(input, c);
    } else if cur == "\"" {
      ScanString(input, c);
      assert input[s.pos - 1 .. after.pos - 1]
        == [input[s.pos - 1]] + input[s.pos .. after.pos - 2] + [input[after.pos - 2]];
    }
  }

  /** Once the input is used up, `next_token` returns the empty literal, not
      as a string, at the current line and column, and reads one more
      (absent) character: the end is sticky, while the column keeps growing. */
  lemma ExhaustedIsSticky(input: seq<char>, c: Cursor)
    requires |input| < c.pos
    ensures ScanDefined(input, c)
    ensures Scan(input, c) == (Token([], false, c.line, c.column), Advance(c))
    ensures |input| < Advance(c).pos
  {
    IsLetterEmpty();
  }

  /** Every call of `next_token` from `c` on can run to completion: each
      string that is opened is closed. */
  ghost predicate Lexable(input: seq<char>, c: Cursor)
    decreases |input| + 1 - c.pos
  {
    ScanDefined(input, c) && (c.pos <= |input| ==> Lexable(input, Scan(input, c).1))
  }

  lemma LexableNext(input: seq<char>, c: Cursor)
    requires Lexable(input, c)
    ensures ScanDefined(input, c) && Lexable(input, Scan(input, c).1)
  {
    if |input| < c.pos {
      ExhaustedIsSticky(input, c);
      ExhaustedIsSticky(input, Advance(c));
    }
  }

  /** An input without double quotes can always be lexed to the end. */
  lemma {:induction false} NoQuotesLexable(input: seq<char>, c: Cursor)
    requires '"' !in input
    ensures Lexable(input, c)
    decreases |input| + 1 - c.pos
  {
    var s := Skip(input, c);
    assert Current(input, s) != "\"";
    if c.pos <= |input| {
      NoQuotesLexable(input, Scan(input, c).1);
    }
  }

  /** The first `n` tokens `next_token` returns from cursor `c`. */
  function Tokens(input: seq<char>, c: Cursor, n: nat): (ts: seq<Token>)
    requires Lexable(input, c)
    ensures |ts| == n
    decreases n
  {
    if n == 0 then []
    else
      LexableNext(input, c);
      var (t, next) := Scan(input, c);
      [t] + Tokens(input, next, n - 1)
  }

  /** The cursor after `n` calls of `next_token` from `c`. */
  function Walk(input: seq<char>, c: Cursor, n: nat): (r: Cursor)
    requires Lexable(input, c)
    ensures Lexable(input, r)
    ensures c.pos + n <= r.pos
    decreases n
  {
    if n == 0 then c
    else
      LexableNext(input, c);
      Walk(input, Scan(input, c).1, n - 1)
  }

  /** One more call of `next_token` appends the token scanned from where
      the first `n` calls left the cursor. */
  lemma {:induction false} TokensSnoc(input: seq<char>, c: Cursor, n: nat)
    requires Lexable(input, c)
    ensures Tokens(input, c, n + 1) == Tokens(input, c, n) + [Scan(input, Walk(input, c, n)).0]
    decreases n
  {
    LexableNext(input, c);
    if n > 0 {
      TokensSnoc(input, Scan(input, c).1, n - 1);
    }
  }

  /** One more call of `next_token` moves on from where `n` calls left the
      cursor. */
  lemma {:induction false} WalkSnoc(input: seq<char>, c: Cursor, n: nat)
    requires Lexable(input, c)
    ensures ScanDefined(input, Walk(input, c, n)) && Walk(input, c, n + 1) == Scan(input, Walk(input, c, n)).1
    decreases n
  {
    LexableNext(input, c);
    LexableNext(input, Walk(input, c, n));
    if n > 0 {
      WalkSnoc(input, Scan(input, c).1, n - 1);
    }
  }

  /** The input is used up after at most `|input| + 1 - c.pos` tokens: every
      token from there on has the empty literal and is no string, and each
      such token stands one column right of the one before. */
  lemma {:induction false} EndOfInputReached(input: seq<char>, c: Cursor, n: nat)
    requires Lexable(input, c)
    ensures forall k | 0 <= k < n && |input| + 1 - c.pos <= k ::
      Tokens(input, c, n)[k].literal == [] && !Tokens(input, c, n)[k].isString
    ensures forall k | 0 <= k && k + 1 < n && |input| + 1 - c.pos <= k ::
      Tokens(input, c, n)[k + 1].column == Tokens(input, c, n)[k].column + 1
    decreases n
  {
    if n > 0 {
      LexableNext(input, c);
      var (t, next) := Scan(input, c);
      EndOfInputReached(input, next, n - 1);
      var ts := Tokens(input, c, n);
      var rest := Tokens(input, next, n - 1);
      assert ts == [t] + rest;
      forall k | 0 <= k < n && |input| + 1 - c.pos <= k
        ensures ts[k].literal == [] && !ts[k].isString
      {
        if k == 0 {
          ExhaustedIsSticky(input, c);
        } else {
          assert ts[k] == rest[k - 1];
        }
      }
      forall k | 0 <= k && k + 1 < n && |input| + 1 - c.pos <= k
        ensures ts[k + 1].column == ts[k].column + 1
      {
        if k == 0 {
          ExhaustedIsSticky(input, c);
          ExhaustedIsSticky(input, next);
          assert ts[1] == rest[0] == Scan(input, next).0;
        } else {
          assert ts[k] == rest[k - 1] && ts[k + 1] == rest[k];
        }
      }
    }
  }

  /** Token lines never decrease along the stream and never fall below the
      line of the starting cursor. */
  lemma {:induction false} LinesNondecreasing(input: seq<char>, c: Cursor, n: nat)
    requires Lexable(input, c)
    ensures forall i | 0 <= i < n :: c.line <= Tokens(input, c, n)[i].line
    ensures forall i, j | 0 <= i < j < n :: Tokens(input, c, n)[i].line <= Tokens(input, c, n)[j].line
    decreases n
  {
    if n > 0 {
      LexableNext(input, c);
      var (t, next) := Scan(input, c);
      LinesNondecreasing(input, next, n - 1);
      var rest := Tokens(input, next, n - 1);
      var ts := Tokens(input, c, n);
      assert ts == [t] + rest;
      forall i | 0 < i < n
        ensures ts[i] == rest[i - 1] && t.line <= ts[i].line
      {
      }
    }
  }

  /** The literals of a token sequence. */
  function Literals(ts: seq<Token>): (r: seq<seq<char>>)
    ensures |r| == |ts| && forall i | 0 <= i < |ts| :: r[i] == ts[i].literal
  {
    seq(|ts|, i requires 0 <= i < |ts| => ts[i].literal)
  }
}
