// Concrete runs of the lexer specification: a few short inputs, and the
// lexer's control-syntax test (src/lexer/lexer.rs,
// it_should_analysis_control_syntax) with the literals of its 18 tokens.
//
// Each token of the test is established by two small lemmas, one for the
// whitespace before it and one for the token itself, so that every proof
// obligation unfolds only a few characters of the input.

module LexerExamples {
  import opened Utils
  import opened LexerSpec
  import MonkeyLexer

  /** The input of the test: the program text with its leading newline and
      its indentation. */
  const ControlSyntaxInput: seq<char> :=
    "\n        if (5 < 10) {" + "\n            return true;" + "\n        } else {" +
    "\n            return false;" + "\n        }" + "\n        "

  /** `input` holds `k` spaces from index `i` on. */
  predicate SpacesAt(input: seq<char>, i: int, k: nat)
    decreases k
  {
    k == 0 || (0 <= i < |input| && input[i] == ' ' && SpacesAt(input, i + 1, k - 1))
  }

  /** Skipping `k` spaces moves the cursor and the column by `k`. */
  lemma {:induction false} SkipSpaces(input: seq<char>, c: Cursor, k: nat)
    requires SpacesAt(input, c.pos - 1, k)
    ensures Skip(input, c) == Skip(input, Cursor(c.pos + k, c.line, c.column + k))
    decreases k
  {
    if k > 0 {
      assert Skip(input, c) == Skip(input, Advance(c));
      SkipSpaces(input, Advance(c), k - 1);
    }
  }

  /** Skipping a newline moves to column 1 of the next line. */
  lemma SkipNewline(input: seq<char>, c: Cursor)
    requires Current(input, c) == "\n"
    ensures Skip(input, c) == Skip(input, Cursor(c.pos + 1, c.line + 1, 1))
  {
  }

  /** Skipping stops at once on a character that is not whitespace. */
  lemma SkipStop(input: seq<char>, c: Cursor)
    requires !EndsInWhitespace(Current(input, c))
    ensures Skip(input, c) == c
  {
  }

  /** `k` spaces and then a non-blank character: the column advances by `k`. */
  lemma SkipSpacesThenStop(input: seq<char>, c: Cursor, k: nat)
    requires SpacesAt(input, c.pos - 1, k)
    requires !EndsInWhitespace(CharAt(input, c.pos - 1 + k))
    ensures Skip(input, c) == Cursor(c.pos + k, c.line, c.column + k)
  {
    SkipSpaces(input, c, k);
    SkipStop(input, Cursor(c.pos + k, c.line, c.column + k));
  }

  /** A newline, `k` spaces and then a non-blank character: column `k + 1` of
      the next line. */
  lemma SkipNewlineSpacesThenStop(input: seq<char>, c: Cursor, k: nat)
    requires Current(input, c) == "\n"
    requires SpacesAt(input, c.pos, k)
    requires !EndsInWhitespace(CharAt(input, c.pos + k))
    ensures Skip(input, c) == Cursor(c.pos + 1 + k, c.line + 1, 1 + k)
  {
    SkipNewline(input, c);
    SkipSpacesThenStop(input, Cursor(c.pos + 1, c.line + 1, 1), k);
  }

  /** If each cursor of `cs` scans to the next token of `ts` and the next
      cursor, and the last cursor is lexable, then so is the first, and `ts`
      are its tokens. */
  lemma {:induction false} TokensFrom(input: seq<char>, cs: seq<Cursor>, ts: seq<Token>)
    requires |cs| == |ts| + 1
    requires forall k | 0 <= k < |ts| :: ScanDefined(input, cs[k]) && Scan(input, cs[k]) == (ts[k], cs[k + 1])
    requires Lexable(input, cs[|ts|])
    ensures Lexable(input, cs[0]) && Tokens(input, cs[0], |ts|) == ts
    decreases |ts|
  {
    if ts != [] {
      TokensFrom(input, cs[1..], ts[1..]);
      assert ts == [ts[0]] + ts[1..];
    }
  }

  /** `n` characters passing `p` from index `i` on, then one that does not:
      the run ends at `i + n`. */
  lemma {:induction false} RunEndOf(input: seq<char>, i: int, n: nat, p: seq<char> -> bool)
    requires !p([])
    requires forall k | i <= k < i + n :: 0 <= k < |input| && p(CharAt(input, k))
    requires !p(CharAt(input, i + n))
    ensures RunEnd(input, i, p) == i + n
    decreases n
  {
    if n > 0 {
      assert p(CharAt(input, i));
      RunEndOf(input, i + 1, n - 1, p);
    }
  }

  /** After skipping to `s`, the word `w` of ASCII letters followed by a
      non-letter is one identifier token. */
  lemma ScanWord(input: seq<char>, c: Cursor, s: Cursor, w: seq<char>)
    requires Skip(input, c) == s && 1 <= s.pos && s.pos - 1 + |w| <= |input|
    requires input[s.pos - 1 .. s.pos - 1 + |w|] == w
    requires w != [] && forall k | 0 <= k < |w| :: IsAsciiLetter(w[k])
    requires !IsLetter(CharAt(input, s.pos - 1 + |w|))
    ensures ScanDefined(input, c)
    ensures Scan(input, c) == (Token(w, false, s.line, s.column), Cursor(s.pos + |w|, s.line, s.column + |w|))
  {
    IsLetterEmpty();
    forall k | s.pos - 1 <= k < s.pos - 1 + |w|
      ensures 0 <= k < |input| && IsLetter(CharAt(input, k))
    {
      assert input[k] == w[k - (s.pos - 1)];
      assert CharAt(input, k) == [input[k]];
      IsLetterOnChar(input[k]);
    }
    RunEndOf(input, s.pos - 1, |w|, IsLetter);
    assert Current(input, s) == [w[0]];
    IsLetterOnChar(w[0]);
  }

  /** After skipping to `s`, the decimal digits `w` followed by a non-digit
      are one number token. */
  lemma ScanDigits(input: seq<char>, c: Cursor, s: Cursor, w: seq<char>)
    requires Skip(input, c) == s && 1 <= s.pos && s.pos - 1 + |w| <= |input|
    requires input[s.pos - 1 .. s.pos - 1 + |w|] == w
    requires w != [] && forall k | 0 <= k < |w| :: IsDecimalDigit(w[k])
    requires !IsDigit(CharAt(input, s.pos - 1 + |w|))
    ensures ScanDefined(input, c)
    ensures Scan(input, c) == (Token(w, false, s.line, s.column), Cursor(s.pos + |w|, s.line, s.column + |w|))
  {
    IsDigitExactly([]);
    forall k | s.pos - 1 <= k < s.pos - 1 + |w|
      ensures 0 <= k < |input| && IsDigit(CharAt(input, k))
    {
      assert input[k] == w[k - (s.pos - 1)];
      assert CharAt(input, k) == [input[k]];
    }
    RunEndOf(input, s.pos - 1, |w|, IsDigit);
    assert Current(input, s) == [w[0]];
    IsLetterOnChar(w[0]);
  }

  /** Past the end of the input every cursor is lexable. */
  lemma ExhaustedLexable(input: seq<char>, c: Cursor)
    requires |input| < c.pos
    ensures Lexable(input, c)
  {
    assert Current(input, c) == [];
    SkipStop(input, c);
  }

  /** From a cursor on the first letter of a word of ASCII letters that
      ends where `input` does or before a non-letter, the next token is that
      word. */
  lemma ScanLetters(input: seq<char>, c: Cursor, w: seq<char>)
    requires 1 <= c.pos && c.pos - 1 + |w| <= |input|
    requires input[c.pos - 1 .. c.pos - 1 + |w|] == w
    requires w != [] && forall k | 0 <= k < |w| :: IsAsciiLetter(w[k])
    requires !IsLetter(CharAt(input, c.pos - 1 + |w|))
    ensures ScanDefined(input, c)
    ensures Scan(input, c) == (Token(w, false, c.line, c.column), Cursor(c.pos + |w|, c.line, c.column + |w|))
  {
    assert input[c.pos - 1] == w[0];
    WhitespaceFacts(w[0]);
    SkipStop(input, c);
    ScanWord(input, c, c, w);
  }

  /** The same for a run of decimal digits. */
  lemma ScanDecimal(input: seq<char>, c: Cursor, n: seq<char>)
    requires 1 <= c.pos && c.pos - 1 + |n| <= |input|
    requires input[c.pos - 1 .. c.pos - 1 + |n|] == n
    requires n != [] && forall k | 0 <= k < |n| :: IsDecimalDigit(n[k])
    requires !IsDigit(CharAt(input, c.pos - 1 + |n|))
    ensures ScanDefined(input, c)
    ensures Scan(input, c) == (Token(n, false, c.line, c.column), Cursor(c.pos + |n|, c.line, c.column + |n|))
  {
    assert input[c.pos - 1] == n[0];
    WhitespaceFacts(n[0]);
    SkipStop(input, c);
    ScanDigits(input, c, c, n);
  }

  /** Identifiers hold no digits: a word of ASCII letters directly followed
      by decimal digits (`x1`, `abc42`) is the identifier, then the number,
      then the end of input. */
  lemma IdentifierStopsAtDigit(w: seq<char>, n: seq<char>)
    requires w != [] && forall k | 0 <= k < |w| :: IsAsciiLetter(w[k])
    requires n != [] && forall k | 0 <= k < |n| :: IsDecimalDigit(n[k])
    ensures Lexable(w + n, New())
    ensures Literals(Tokens(w + n, New(), 3)) == [w, n, []]
  {
    assert New() == Cursor(1, 1, 1);
    WordThenNumber(w, n);
    TwoThenEnd(w + n, Cursor(1, 1, 1), Cursor(|w| + 1, 1, |w| + 1), Cursor(|w| + |n| + 1, 1, |w| + |n| + 1),
      Token(w, false, 1, 1), Token(n, false, 1, |w| + 1));
  }

  /** Two tokens that use up the input, then the end-of-input token. */
  lemma TwoThenEnd(input: seq<char>, c0: Cursor, c1: Cursor, c2: Cursor, t0: Token, t1: Token)
    requires ScanDefined(input, c0) && Scan(input, c0) == (t0, c1)
    requires ScanDefined(input, c1) && Scan(input, c1) == (t1, c2)
    requires |input| < c2.pos
    ensures Lexable(input, c0)
    ensures Literals(Tokens(input, c0, 3)) == [t0.literal, t1.literal, []]
  {
    OneThenEnd(input, c1, c2, t1);
    var ts := Tokens(input, c0, 3);
    assert ts == [t0] + Tokens(input, c1, 2);
    assert Literals(ts)[1..] == Literals(Tokens(input, c1, 2));
  }


  /** The two tokens of a word followed by a number. */
  lemma WordThenNumber(w: seq<char>, n: seq<char>)
    requires w != [] && forall k | 0 <= k < |w| :: IsAsciiLetter(w[k])
    requires n != [] && forall k | 0 <= k < |n| :: IsDecimalDigit(n[k])
    ensures ScanDefined(w + n, Cursor(1, 1, 1))
    ensures Scan(w + n, Cursor(1, 1, 1)) == (Token(w, false, 1, 1), Cursor(|w| + 1, 1, |w| + 1))
    ensures ScanDefined(w + n, Cursor(|w| + 1, 1, |w| + 1))
    ensures Scan(w + n, Cursor(|w| + 1, 1, |w| + 1)) ==
      (Token(n, false, 1, |w| + 1), Cursor(|w| + |n| + 1, 1, |w| + |n| + 1))
  {
    WordBeforeNumber(w, n);
    NumberAfterWord(w, n);
  }

  lemma WordBeforeNumber(w: seq<char>, n: seq<char>)
    requires w != [] && forall k | 0 <= k < |w| :: IsAsciiLetter(w[k])
    requires n != [] && forall k | 0 <= k < |n| :: IsDecimalDigit(n[k])
    ensures ScanDefined(w + n, Cursor(1, 1, 1))
    ensures Scan(w + n, Cursor(1, 1, 1)) == (Token(w, false, 1, 1), Cursor(|w| + 1, 1, |w| + 1))
  {
    var input := w + n;
    IsLetterOnChar(n[0]);
    assert input[0..|w|] == w && CharAt(input, |w|) == [n[0]];
    ScanLetters(input, Cursor(1, 1, 1), w);
  }

  lemma NumberAfterWord(w: seq<char>, n: seq<char>)
    requires w != [] && forall k | 0 <= k < |w| :: IsAsciiLetter(w[k])
    requires n != [] && forall k | 0 <= k < |n| :: IsDecimalDigit(n[k])
    ensures ScanDefined(w + n, Cursor(|w| + 1, 1, |w| + 1))
    ensures Scan(w + n, Cursor(|w| + 1, 1, |w| + 1)) ==
      (Token(n, false, 1, |w| + 1), Cursor(|w| + |n| + 1, 1, |w| + |n| + 1))
  {
    var input := w + n;
    assert input[|w|..|w| + |n|] == n && CharAt(input, |w| + |n|) == [];
    ScanDecimal(input, Cursor(|w| + 1, 1, |w| + 1), n);
  }

  /** Maximal munch: a word of ASCII letters is one literal, so `ifx` is not
      the keyword `if` followed by `x`. */
  lemma MaximalMunch(w: seq<char>)
    requires w != [] && forall k | 0 <= k < |w| :: IsAsciiLetter(w[k])
    ensures Lexable(w, New())
    ensures Literals(Tokens(w, New(), 2)) == [w, []]
  {
    assert New() == Cursor(1, 1, 1);
    WholeWord(w);
    OneThenEnd(w, Cursor(1, 1, 1), Cursor(|w| + 1, 1, |w| + 1), Token(w, false, 1, 1));
  }

  /** An input that is one word of ASCII letters scans as that word. */
  lemma WholeWord(w: seq<char>)
    requires w != [] && forall k | 0 <= k < |w| :: IsAsciiLetter(w[k])
    ensures ScanDefined(w, Cursor(1, 1, 1))
    ensures Scan(w, Cursor(1, 1, 1)) == (Token(w, false, 1, 1), Cursor(|w| + 1, 1, |w| + 1))
  {
    IsLetterEmpty();
    assert w[0..|w|] == w;
    ScanLetters(w, Cursor(1, 1, 1), w);
  }

  /** One token that uses up the input, then the end-of-input token. */
  lemma OneThenEnd(input: seq<char>, c0: Cursor, c1: Cursor, t0: Token)
    requires ScanDefined(input, c0) && Scan(input, c0) == (t0, c1)
    requires |input| < c1.pos
    ensures Lexable(input, c0)
    ensures Literals(Tokens(input, c0, 2)) == [t0.literal, []]
  {
    ExhaustedIsSticky(input, c1);
    ExhaustedLexable(input, c1);
    assert Tokens(input, c0, 2) == [t0] + Tokens(input, c1, 1);
  }


  /** `k` newlines from the cursor on: each one moves to column 1 of the
      next line. */
  lemma {:induction false} SkipNewlines(input: seq<char>, c: Cursor, k: nat)
    requires k > 0
    requires forall i | c.pos - 1 <= i < c.pos - 1 + k :: 0 <= i < |input| && input[i] == '\n'
    ensures Skip(input, c) == Skip(input, Cursor(c.pos + k, c.line + k, 1))
    decreases k
  {
    assert CharAt(input, c.pos - 1) == [input[c.pos - 1]];
    SkipNewline(input, c);
    if k > 1 {
      SkipNewlines(input, Cursor(c.pos + 1, c.line + 1, 1), k - 1);
    }
  }

  /** Blank lines before a word: after `k` newlines at the start of the
      input the identifier is on line `k + 1`, column 1. */
  lemma BlankLinesBeforeWord(input: seq<char>, k: nat, w: seq<char>)
    requires k > 0 && |input| == k + |w| && input[k..] == w
    requires forall i | 0 <= i < k :: input[i] == '\n'
    requires w != [] && forall i | 0 <= i < |w| :: IsAsciiLetter(w[i])
    ensures ScanDefined(input, New())
    ensures Scan(input, New()).0 == Token(w, false, k + 1, 1)
  {
    assert New() == Cursor(1, 1, 1);
    SkipNewlines(input, Cursor(1, 1, 1), k);
    assert input[k] == w[0];
    WhitespaceFacts(input[k]);
    SkipStop(input, Cursor(k + 1, k + 1, 1));
    IsLetterEmpty();
    ScanWord(input, New(), Cursor(k + 1, k + 1, 1), w);
  }

  /** A token on a new line can stand further right than the token before
      it: after the word `v`, a newline and `k` spaces, the word `w` is at
      column `k + 1` of line 2, whatever the length of `v`. */
  lemma WordOnNextLine(input: seq<char>, v: seq<char>, k: nat, w: seq<char>)
    requires |input| == |v| + 1 + k + |w|
    requires input[..|v|] == v && input[|v|] == '\n' && SpacesAt(input, |v| + 1, k)
    requires input[|v| + 1 + k ..] == w
    requires v != [] && forall i | 0 <= i < |v| :: IsAsciiLetter(v[i])
    requires w != [] && forall i | 0 <= i < |w| :: IsAsciiLetter(w[i])
    ensures Lexable(input, New())
    ensures Tokens(input, New(), 2) == [Token(v, false, 1, 1), Token(w, false, 2, k + 1)]
  {
    var c0, c1, c2 := Cursor(1, 1, 1), Cursor(|v| + 1, 1, |v| + 1), Cursor(|input| + 1, 2, k + 1 + |w|);
    var t0, t1 := Token(v, false, 1, 1), Token(w, false, 2, k + 1);
    WordBeforeNewline(input, v, k, w);
    WordAfterNewline(input, v, k, w);
    ExhaustedLexable(input, c2);
    var cs, ts := [c0, c1, c2], [t0, t1];
    forall i | 0 <= i < |ts|
      ensures ScanDefined(input, cs[i]) && Scan(input, cs[i]) == (ts[i], cs[i + 1])
    {
      if i == 0 {
        assert cs[0] == c0 && cs[1] == c1 && ts[0] == t0;
      } else {
        assert cs[1] == c1 && cs[2] == c2 && ts[1] == t1;
      }
    }
    TokensFrom(input, cs, ts);
    assert New() == c0;
  }

  /** The first word of `WordOnNextLine`, ended by the newline. */
  lemma WordBeforeNewline(input: seq<char>, v: seq<char>, k: nat, w: seq<char>)
    requires |input| == |v| + 1 + k + |w|
    requires input[..|v|] == v && input[|v|] == '\n'
    requires v != [] && forall i | 0 <= i < |v| :: IsAsciiLetter(v[i])
    ensures ScanDefined(input, Cursor(1, 1, 1))
    ensures Scan(input, Cursor(1, 1, 1)) == (Token(v, false, 1, 1), Cursor(|v| + 1, 1, |v| + 1))
  {
    IsLetterOnChar('\n');
    assert input[0..|v|] == v && CharAt(input, |v|) == "\n";
    ScanLetters(input, Cursor(1, 1, 1), v);
  }

  /** Whitespace skipping in `WordOnNextLine`: over the newline and the
      spaces, to the start of the second word. */
  lemma SkipToNextLine(input: seq<char>, v: seq<char>, k: nat, w: seq<char>)
    requires |input| == |v| + 1 + k + |w|
    requires input[|v|] == '\n' && SpacesAt(input, |v| + 1, k)
    requires w != [] && input[|v| + 1 + k] == w[0] && IsAsciiLetter(w[0])
    ensures Skip(input, Cursor(|v| + 1, 1, |v| + 1)) == Cursor(|v| + 2 + k, 2, 1 + k)
  {
    WhitespaceFacts(w[0]);
    assert CharAt(input, |v|) == "\n";
    SkipNewlineSpacesThenStop(input, Cursor(|v| + 1, 1, |v| + 1), k);
  }

  /** The second word of `WordOnNextLine`: the newline sets the column back,
      the spaces move it on. */
  lemma WordAfterNewline(input: seq<char>, v: seq<char>, k: nat, w: seq<char>)
    requires |input| == |v| + 1 + k + |w|
    requires input[|v|] == '\n' && SpacesAt(input, |v| + 1, k)
    requires input[|v| + 1 + k ..] == w
    requires w != [] && forall i | 0 <= i < |w| :: IsAsciiLetter(w[i])
    ensures ScanDefined(input, Cursor(|v| + 1, 1, |v| + 1))
    ensures Scan(input, Cursor(|v| + 1, 1, |v| + 1)) ==
      (Token(w, false, 2, k + 1), Cursor(|input| + 1, 2, k + 1 + |w|))
  {
    var s := Cursor(|v| + 2 + k, 2, 1 + k);
    assert input[|v| + 1 + k] == w[0];
    SkipToNextLine(input, v, k, w);
    IsLetterEmpty();
    assert CharAt(input, |input|) == [];
    assert input[s.pos - 1 .. s.pos - 1 + |w|] == w;
    ScanWord(input, Cursor(|v| + 1, 1, |v| + 1), s, w);
  }

  /** The program `a`, a newline, six spaces and `b`. */
  const NewLineInput: seq<char> := "a\n      b"

  /** On `NewLineInput` the token `b` of line 2 stands at column 7, right of
      the token `a` of line 1 at column 1. */
  lemma ColumnCanGrowOnNewLine()
    ensures Lexable(NewLineInput, New())
    ensures Tokens(NewLineInput, New(), 2) == [Token("a", false, 1, 1), Token("b", false, 2, 7)]
  {
    var input := NewLineInput;
    assert |input| == 9;
    assert input[0] == 'a' && input[1] == '\n' && input[8] == 'b';
    assert input[2] == ' ' && input[3] == ' ' && input[4] == ' ' && input[5] == ' ' && input[6] == ' ' && input[7] == ' ';
    assert SpacesAt(input, 8, 0);
    assert SpacesAt(input, 7, 1);
    assert SpacesAt(input, 6, 2);
    assert SpacesAt(input, 5, 3);
    assert SpacesAt(input, 4, 4);
    assert SpacesAt(input, 3, 5);
    assert SpacesAt(input, 2, 6);
    assert input[..1] == "a" && input[8..] == "b";
    WordOnNextLine(input, "a", 6, "b");
  }

  /** A newline inside a string moves the column on but not the line. */
  lemma StringKeepsLine()
    ensures ScanDefined("\"a\nb\"", New())
    ensures Scan("\"a\nb\"", New()) == (Token("a\nb", true, 1, 1), Cursor(6, 1, 6))
  {
    var input := "\"a\nb\"";
    IsLetterOnChar('"');
    assert Skip(input, New()) == New();
    assert input[4] == '"' && input[1..] == "a\nb\"";
    assert QuoteEnd(input, 1) == 4;
    assert input[1..4] == "a\nb";
    assert ReadStr(input, New()) == ("a\nb", Cursor(6, 1, 6));
  }

  /** The tokens the test expects, with their lines and columns. */
  const Expected: seq<Token> :=
    [Token("if", false, 2, 9),
     Token("(", false, 2, 12),
     Token("5", false, 2, 13),
     Token("<", false, 2, 15),
     Token("10", false, 2, 17),
     Token(")", false, 2, 19),
     Token("{", false, 2, 21),
     Token("return", false, 3, 13),
     Token("true", false, 3, 20),
     Token(";", false, 3, 24),
     Token("}", false, 4, 9),
     Token("else", false, 4, 11),
     Token("{", false, 4, 16),
     Token("return", false, 5, 13),
     Token("false", false, 5, 20),
     Token(";", false, 5, 25),
     Token("}", false, 6, 9),
     Token("", false, 7, 9)]

  /** The cursor before each of them, and the cursor after the last. */
  const Cursors: seq<Cursor> :=
    [Cursor(1, 1, 1),
     Cursor(12, 2, 11),
     Cursor(14, 2, 13),
     Cursor(15, 2, 14),
     Cursor(17, 2, 16),
     Cursor(20, 2, 19),
     Cursor(21, 2, 20),
     Cursor(23, 2, 22),
     Cursor(42, 3, 19),
     Cursor(47, 3, 24),
     Cursor(48, 3, 25),
     Cursor(58, 4, 10),
     Cursor(63, 4, 15),
     Cursor(65, 4, 17),
     Cursor(84, 5, 19),
     Cursor(90, 5, 25),
     Cursor(91, 5, 26),
     Cursor(101, 6, 10),
     Cursor(111, 7, 10)]

  lemma Spaces0()
    ensures SpacesAt(ControlSyntaxInput, 1, 8)
  {
    var input := ControlSyntaxInput;
    assert input[8] == ' ' && SpacesAt(input, 8, 1);
    assert input[7] == ' ' && SpacesAt(input, 7, 2);
    assert input[6] == ' ' && SpacesAt(input, 6, 3);
    assert input[5] == ' ' && SpacesAt(input, 5, 4);
    assert input[4] == ' ' && SpacesAt(input, 4, 5);
    assert input[3] == ' ' && SpacesAt(input, 3, 6);
    assert input[2] == ' ' && SpacesAt(input, 2, 7);
    assert input[1] == ' ' && SpacesAt(input, 1, 8);
  }

  lemma Skip0()
    ensures Skip(ControlSyntaxInput, Cursor(1, 1, 1)) == Cursor(10, 2, 9)
  {
    var input := ControlSyntaxInput;
    assert input[0] == '\n';
    Spaces0();
    assert input[9] == 'i';
    assert CharAt(input, 9) == "i";
    SkipNewlineSpacesThenStop(input, Cursor(1, 1, 1), 8);
  }

  lemma Step0()
    ensures ScanDefined(ControlSyntaxInput, Cursor(1, 1, 1))
    ensures Scan(ControlSyntaxInput, Cursor(1, 1, 1)) == (Token("if", false, 2, 9), Cursor(12, 2, 11))
  {
    var input := ControlSyntaxInput;
    Skip0();
    IsLetterOnChar(' ');
    assert input[11] == ' ';
    assert CharAt(input, 11) == " ";
    assert input[9] == 'i' && input[10] == 'f';
    assert input[9..11] == "if";
    ScanWord(input, Cursor(1, 1, 1), Cursor(10, 2, 9), "if");
  }

  lemma StepAt0()
    ensures ScanDefined(ControlSyntaxInput, Cursors[0])
    ensures Scan(ControlSyntaxInput, Cursors[0]) == (Expected[0], Cursors[1])
  {
    Step0();
    assert Cursors[0] == Cursor(1, 1, 1) && Cursors[1] == Cursor(12, 2, 11);
    assert Expected[0] == Token("if", false, 2, 9);
  }

  lemma Skip1()
    ensures Skip(ControlSyntaxInput, Cursor(12, 2, 11)) == Cursor(13, 2, 12)
  {
    var input := ControlSyntaxInput;
    assert input[11] == ' ' && SpacesAt(input, 11, 1);
    assert input[12] == '(';
    assert CharAt(input, 12) == "(";
    SkipSpacesThenStop(input, Cursor(12, 2, 11), 1);
  }

  lemma Step1()
    ensures ScanDefined(ControlSyntaxInput, Cursor(12, 2, 11))
    ensures Scan(ControlSyntaxInput, Cursor(12, 2, 11)) == (Token("(", false, 2, 12), Cursor(14, 2, 13))
  {
    var input := ControlSyntaxInput;
    Skip1();
    assert Current(input, Cursor(13, 2, 12)) == "(";
    IsLetterOnChar('(');
  }

  lemma StepAt1()
    ensures ScanDefined(ControlSyntaxInput, Cursors[1])
    ensures Scan(ControlSyntaxInput, Cursors[1]) == (Expected[1], Cursors[2])
  {
    Step1();
    assert Cursors[1] == Cursor(12, 2, 11) && Cursors[2] == Cursor(14, 2, 13);
    assert Expected[1] == Token("(", false, 2, 12);
  }

  lemma Step2()
    ensures ScanDefined(ControlSyntaxInput, Cursor(14, 2, 13))
    ensures Scan(ControlSyntaxInput, Cursor(14, 2, 13)) == (Token("5", false, 2, 13), Cursor(15, 2, 14))
  {
    var input := ControlSyntaxInput;
    SkipStop(input, Cursor(14, 2, 13));
    assert input[14] == ' ';
    assert CharAt(input, 14) == " ";
    assert input[13..14] == "5";
    ScanDigits(input, Cursor(14, 2, 13), Cursor(14, 2, 13), "5");
  }

  lemma StepAt2()
    ensures ScanDefined(ControlSyntaxInput, Cursors[2])
    ensures Scan(ControlSyntaxInput, Cursors[2]) == (Expected[2], Cursors[3])
  {
    Step2();
    assert Cursors[2] == Cursor(14, 2, 13) && Cursors[3] == Cursor(15, 2, 14);
    assert Expected[2] == Token("5", false, 2, 13);
  }

  lemma Skip3()
    ensures Skip(ControlSyntaxInput, Cursor(15, 2, 14)) == Cursor(16, 2, 15)
  {
    var input := ControlSyntaxInput;
    assert input[14] == ' ' && SpacesAt(input, 14, 1);
    assert input[15] == '<';
    assert CharAt(input, 15) == "<";
    SkipSpacesThenStop(input, Cursor(15, 2, 14), 1);
  }

  lemma Step3()
    ensures ScanDefined(ControlSyntaxInput, Cursor(15, 2, 14))
    ensures Scan(ControlSyntaxInput, Cursor(15, 2, 14)) == (Token("<", false, 2, 15), Cursor(17, 2, 16))
  {
    var input := ControlSyntaxInput;
    Skip3();
    assert Current(input, Cursor(16, 2, 15)) == "<";
    IsLetterOnChar('<');
  }

  lemma StepAt3()
    ensures ScanDefined(ControlSyntaxInput, Cursors[3])
    ensures Scan(ControlSyntaxInput, Cursors[3]) == (Expected[3], Cursors[4])
  {
    Step3();
    assert Cursors[3] == Cursor(15, 2, 14) && Cursors[4] == Cursor(17, 2, 16);
    assert Expected[3] == Token("<", false, 2, 15);
  }

  lemma Skip4()
    ensures Skip(ControlSyntaxInput, Cursor(17, 2, 16)) == Cursor(18, 2, 17)
  {
    var input := ControlSyntaxInput;
    assert input[16] == ' ' && SpacesAt(input, 16, 1);
    assert input[17] == '1';
    assert CharAt(input, 17) == "1";
    SkipSpacesThenStop(input, Cursor(17, 2, 16), 1);
  }

  lemma Step4()
    ensures ScanDefined(ControlSyntaxInput, Cursor(17, 2, 16))
    ensures Scan(ControlSyntaxInput, Cursor(17, 2, 16)) == (Token("10", false, 2, 17), Cursor(20, 2, 19))
  {
    var input := ControlSyntaxInput;
    Skip4();
    assert input[19] == ')';
    assert CharAt(input, 19) == ")";
    assert input[17] == '1' && input[18] == '0';
    assert input[17..19] == "10";
    ScanDigits(input, Cursor(17, 2, 16), Cursor(18, 2, 17), "10");
  }

  lemma StepAt4()
    ensures ScanDefined(ControlSyntaxInput, Cursors[4])
    ensures Scan(ControlSyntaxInput, Cursors[4]) == (Expected[4], Cursors[5])
  {
    Step4();
    assert Cursors[4] == Cursor(17, 2, 16) && Cursors[5] == Cursor(20, 2, 19);
    assert Expected[4] == Token("10", false, 2, 17);
  }

  lemma Step5()
    ensures ScanDefined(ControlSyntaxInput, Cursor(20, 2, 19))
    ensures Scan(ControlSyntaxInput, Cursor(20, 2, 19)) == (Token(")", false, 2, 19), Cursor(21, 2, 20))
  {
    var input := ControlSyntaxInput;
    assert Skip(input, Cursor(20, 2, 19)) == Cursor(20, 2, 19);
    assert Current(input, Cursor(20, 2, 19)) == ")";
    IsLetterOnChar(')');
  }

  lemma StepAt5()
    ensures ScanDefined(ControlSyntaxInput, Cursors[5])
    ensures Scan(ControlSyntaxInput, Cursors[5]) == (Expected[5], Cursors[6])
  {
    Step5();
    assert Cursors[5] == Cursor(20, 2, 19) && Cursors[6] == Cursor(21, 2, 20);
    assert Expected[5] == Token(")", false, 2, 19);
  }

  lemma Skip6()
    ensures Skip(ControlSyntaxInput, Cursor(21, 2, 20)) == Cursor(22, 2, 21)
  {
    var input := ControlSyntaxInput;
    assert input[20] == ' ' && SpacesAt(input, 20, 1);
    assert input[21] == '{';
    assert CharAt(input, 21) == "{";
    SkipSpacesThenStop(input, Cursor(21, 2, 20), 1);
  }

  lemma Step6()
    ensures ScanDefined(ControlSyntaxInput, Cursor(21, 2, 20))
    ensures Scan(ControlSyntaxInput, Cursor(21, 2, 20)) == (Token("{", false, 2, 21), Cursor(23, 2, 22))
  {
    var input := ControlSyntaxInput;
    Skip6();
    assert Current(input, Cursor(22, 2, 21)) == "{";
    IsLetterOnChar('{');
  }

  lemma StepAt6()
    ensures ScanDefined(ControlSyntaxInput, Cursors[6])
    ensures Scan(ControlSyntaxInput, Cursors[6]) == (Expected[6], Cursors[7])
  {
    Step6();
    assert Cursors[6] == Cursor(21, 2, 20) && Cursors[7] == Cursor(23, 2, 22);
    assert Expected[6] == Token("{", false, 2, 21);
  }

  lemma Spaces7()
    ensures SpacesAt(ControlSyntaxInput, 23, 12)
  {
    var input := ControlSyntaxInput;
    assert input[34] == ' ' && SpacesAt(input, 34, 1);
    assert input[33] == ' ' && SpacesAt(input, 33, 2);
    assert input[32] == ' ' && SpacesAt(input, 32, 3);
    assert input[31] == ' ' && SpacesAt(input, 31, 4);
    assert input[30] == ' ' && SpacesAt(input, 30, 5);
    assert input[29] == ' ' && SpacesAt(input, 29, 6);
    assert input[28] == ' ' && SpacesAt(input, 28, 7);
    assert input[27] == ' ' && SpacesAt(input, 27, 8);
    assert input[26] == ' ' && SpacesAt(input, 26, 9);
    assert input[25] == ' ' && SpacesAt(input, 25, 10);
    assert input[24] == ' ' && SpacesAt(input, 24, 11);
    assert input[23] == ' ' && SpacesAt(input, 23, 12);
  }

  lemma Skip7()
    ensures Skip(ControlSyntaxInput, Cursor(23, 2, 22)) == Cursor(36, 3, 13)
  {
    var input := ControlSyntaxInput;
    assert input[22] == '\n';
    Spaces7();
    assert input[35] == 'r';
    assert CharAt(input, 35) == "r";
    SkipNewlineSpacesThenStop(input, Cursor(23, 2, 22), 12);
  }

  lemma Step7()
    ensures ScanDefined(ControlSyntaxInput, Cursor(23, 2, 22))
    ensures Scan(ControlSyntaxInput, Cursor(23, 2, 22)) == (Token("return", false, 3, 13), Cursor(42, 3, 19))
  {
    var input := ControlSyntaxInput;
    Skip7();
    IsLetterOnChar(' ');
    assert input[41] == ' ';
    assert CharAt(input, 41) == " ";
    assert input[35] == 'r' && input[36] == 'e' && input[37] == 't' && input[38] == 'u' && input[39] == 'r' && input[40] == 'n';
    assert input[35..41] == "return";
    ScanWord(input, Cursor(23, 2, 22), Cursor(36, 3, 13), "return");
  }

  lemma StepAt7()
    ensures ScanDefined(ControlSyntaxInput, Cursors[7])
    ensures Scan(ControlSyntaxInput, Cursors[7]) == (Expected[7], Cursors[8])
  {
    Step7();
    assert Cursors[7] == Cursor(23, 2, 22) && Cursors[8] == Cursor(42, 3, 19);
    assert Expected[7] == Token("return", false, 3, 13);
  }

  lemma Skip8()
    ensures Skip(ControlSyntaxInput, Cursor(42, 3, 19)) == Cursor(43, 3, 20)
  {
    var input := ControlSyntaxInput;
    assert input[41] == ' ' && SpacesAt(input, 41, 1);
    assert input[42] == 't';
    assert CharAt(input, 42) == "t";
    SkipSpacesThenStop(input, Cursor(42, 3, 19), 1);
  }

  lemma Step8()
    ensures ScanDefined(ControlSyntaxInput, Cursor(42, 3, 19))
    ensures Scan(ControlSyntaxInput, Cursor(42, 3, 19)) == (Token("true", false, 3, 20), Cursor(47, 3, 24))
  {
    var input := ControlSyntaxInput;
    Skip8();
    IsLetterOnChar(';');
    assert input[46] == ';';
    assert CharAt(input, 46) == ";";
    assert input[42] == 't' && input[43] == 'r' && input[44] == 'u' && input[45] == 'e';
    assert input[42..46] == "true";
    ScanWord(input, Cursor(42, 3, 19), Cursor(43, 3, 20), "true");
  }

  lemma StepAt8()
    ensures ScanDefined(ControlSyntaxInput, Cursors[8])
    ensures Scan(ControlSyntaxInput, Cursors[8]) == (Expected[8], Cursors[9])
  {
    Step8();
    assert Cursors[8] == Cursor(42, 3, 19) && Cursors[9] == Cursor(47, 3, 24);
    assert Expected[8] == Token("true", false, 3, 20);
  }

  lemma Step9()
    ensures ScanDefined(ControlSyntaxInput, Cursor(47, 3, 24))
    ensures Scan(ControlSyntaxInput, Cursor(47, 3, 24)) == (Token(";", false, 3, 24), Cursor(48, 3, 25))
  {
    var input := ControlSyntaxInput;
    assert Skip(input, Cursor(47, 3, 24)) == Cursor(47, 3, 24);
    assert Current(input, Cursor(47, 3, 24)) == ";";
    IsLetterOnChar(';');
  }

  lemma StepAt9()
    ensures ScanDefined(ControlSyntaxInput, Cursors[9])
    ensures Scan(ControlSyntaxInput, Cursors[9]) == (Expected[9], Cursors[10])
  {
    Step9();
    assert Cursors[9] == Cursor(47, 3, 24) && Cursors[10] == Cursor(48, 3, 25);
    assert Expected[9] == Token(";", false, 3, 24);
  }

  lemma Spaces10()
    ensures SpacesAt(ControlSyntaxInput, 48, 8)
  {
    var input := ControlSyntaxInput;
    assert input[55] == ' ' && SpacesAt(input, 55, 1);
    assert input[54] == ' ' && SpacesAt(input, 54, 2);
    assert input[53] == ' ' && SpacesAt(input, 53, 3);
    assert input[52] == ' ' && SpacesAt(input, 52, 4);
    assert input[51] == ' ' && SpacesAt(input, 51, 5);
    assert input[50] == ' ' && SpacesAt(input, 50, 6);
    assert input[49] == ' ' && SpacesAt(input, 49, 7);
    assert input[48] == ' ' && SpacesAt(input, 48, 8);
  }

  lemma Skip10()
    ensures Skip(ControlSyntaxInput, Cursor(48, 3, 25)) == Cursor(57, 4, 9)
  {
    var input := ControlSyntaxInput;
    assert input[47] == '\n';
    Spaces10();
    assert input[56] == '}';
    assert CharAt(input, 56) == "}";
    SkipNewlineSpacesThenStop(input, Cursor(48, 3, 25), 8);
  }

  lemma Step10()
    ensures ScanDefined(ControlSyntaxInput, Cursor(48, 3, 25))
    ensures Scan(ControlSyntaxInput, Cursor(48, 3, 25)) == (Token("}", false, 4, 9), Cursor(58, 4, 10))
  {
    var input := ControlSyntaxInput;
    Skip10();
    assert Current(input, Cursor(57, 4, 9)) == "}";
    IsLetterOnChar('}');
  }

  lemma StepAt10()
    ensures ScanDefined(ControlSyntaxInput, Cursors[10])
    ensures Scan(ControlSyntaxInput, Cursors[10]) == (Expected[10], Cursors[11])
  {
    Step10();
    assert Cursors[10] == Cursor(48, 3, 25) && Cursors[11] == Cursor(58, 4, 10);
    assert Expected[10] == Token("}", false, 4, 9);
  }

  lemma Skip11()
    ensures Skip(ControlSyntaxInput, Cursor(58, 4, 10)) == Cursor(59, 4, 11)
  {
    var input := ControlSyntaxInput;
    assert input[57] == ' ' && SpacesAt(input, 57, 1);
    assert input[58] == 'e';
    assert CharAt(input, 58) == "e";
    SkipSpacesThenStop(input, Cursor(58, 4, 10), 1);
  }

  lemma Step11()
    ensures ScanDefined(ControlSyntaxInput, Cursor(58, 4, 10))
    ensures Scan(ControlSyntaxInput, Cursor(58, 4, 10)) == (Token("else", false, 4, 11), Cursor(63, 4, 15))
  {
    var input := ControlSyntaxInput;
    Skip11();
    IsLetterOnChar(' ');
    assert input[62] == ' ';
    assert CharAt(input, 62) == " ";
    assert input[58] == 'e' && input[59] == 'l' && input[60] == 's' && input[61] == 'e';
    assert input[58..62] == "else";
    ScanWord(input, Cursor(58, 4, 10), Cursor(59, 4, 11), "else");
  }

  lemma StepAt11()
    ensures ScanDefined(ControlSyntaxInput, Cursors[11])
    ensures Scan(ControlSyntaxInput, Cursors[11]) == (Expected[11], Cursors[12])
  {
    Step11();
    assert Cursors[11] == Cursor(58, 4, 10) && Cursors[12] == Cursor(63, 4, 15);
    assert Expected[11] == Token("else", false, 4, 11);
  }

  lemma Skip12()
    ensures Skip(ControlSyntaxInput, Cursor(63, 4, 15)) == Cursor(64, 4, 16)
  {
    var input := ControlSyntaxInput;
    assert input[62] == ' ' && SpacesAt(input, 62, 1);
    assert input[63] == '{';
    assert CharAt(input, 63) == "{";
    SkipSpacesThenStop(input, Cursor(63, 4, 15), 1);
  }

  lemma Step12()
    ensures ScanDefined(ControlSyntaxInput, Cursor(63, 4, 15))
    ensures Scan(ControlSyntaxInput, Cursor(63, 4, 15)) == (Token("{", false, 4, 16), Cursor(65, 4, 17))
  {
    var input := ControlSyntaxInput;
    Skip12();
    assert Current(input, Cursor(64, 4, 16)) == "{";
    IsLetterOnChar('{');
  }

  lemma StepAt12()
    ensures ScanDefined(ControlSyntaxInput, Cursors[12])
    ensures Scan(ControlSyntaxInput, Cursors[12]) == (Expected[12], Cursors[13])
  {
    Step12();
    assert Cursors[12] == Cursor(63, 4, 15) && Cursors[13] == Cursor(65, 4, 17);
    assert Expected[12] == Token("{", false, 4, 16);
  }

  lemma Spaces13()
    ensures SpacesAt(ControlSyntaxInput, 65, 12)
  {
    var input := ControlSyntaxInput;
    assert input[76] == ' ' && SpacesAt(input, 76, 1);
    assert input[75] == ' ' && SpacesAt(input, 75, 2);
    assert input[74] == ' ' && SpacesAt(input, 74, 3);
    assert input[73] == ' ' && SpacesAt(input, 73, 4);
    assert input[72] == ' ' && SpacesAt(input, 72, 5);
    assert input[71] == ' ' && SpacesAt(input, 71, 6);
    assert input[70] == ' ' && SpacesAt(input, 70, 7);
    assert input[69] == ' ' && SpacesAt(input, 69, 8);
    assert input[68] == ' ' && SpacesAt(input, 68, 9);
    assert input[67] == ' ' && SpacesAt(input, 67, 10);
    assert input[66] == ' ' && SpacesAt(input, 66, 11);
    assert input[65] == ' ' && SpacesAt(input, 65, 12);
  }

  lemma Skip13()
    ensures Skip(ControlSyntaxInput, Cursor(65, 4, 17)) == Cursor(78, 5, 13)
  {
    var input := ControlSyntaxInput;
    assert input[64] == '\n';
    Spaces13();
    assert input[77] == 'r';
    assert CharAt(input, 77) == "r";
    SkipNewlineSpacesThenStop(input, Cursor(65, 4, 17), 12);
  }

  lemma Step13()
    ensures ScanDefined(ControlSyntaxInput, Cursor(65, 4, 17))
    ensures Scan(ControlSyntaxInput, Cursor(65, 4, 17)) == (Token("return", false, 5, 13), Cursor(84, 5, 19))
  {
    var input := ControlSyntaxInput;
    Skip13();
    IsLetterOnChar(' ');
    assert input[83] == ' ';
    assert CharAt(input, 83) == " ";
    assert input[77] == 'r' && input[78] == 'e' && input[79] == 't' && input[80] == 'u' && input[81] == 'r' && input[82] == 'n';
    assert input[77..83] == "return";
    ScanWord(input, Cursor(65, 4, 17), Cursor(78, 5, 13), "return");
  }

  lemma StepAt13()
    ensures ScanDefined(ControlSyntaxInput, Cursors[13])
    ensures Scan(ControlSyntaxInput, Cursors[13]) == (Expected[13], Cursors[14])
  {
    Step13();
    assert Cursors[13] == Cursor(65, 4, 17) && Cursors[14] == Cursor(84, 5, 19);
    assert Expected[13] == Token("return", false, 5, 13);
  }

  lemma Skip14()
    ensures Skip(ControlSyntaxInput, Cursor(84, 5, 19)) == Cursor(85, 5, 20)
  {
    var input := ControlSyntaxInput;
    assert input[83] == ' ' && SpacesAt(input, 83, 1);
    assert input[84] == 'f';
    assert CharAt(input, 84) == "f";
    SkipSpacesThenStop(input, Cursor(84, 5, 19), 1);
  }

  lemma Step14()
    ensures ScanDefined(ControlSyntaxInput, Cursor(84, 5, 19))
    ensures Scan(ControlSyntaxInput, Cursor(84, 5, 19)) == (Token("false", false, 5, 20), Cursor(90, 5, 25))
  {
    var input := ControlSyntaxInput;
    Skip14();
    IsLetterOnChar(';');
    assert input[89] == ';';
    assert CharAt(input, 89) == ";";
    assert input[84] == 'f' && input[85] == 'a' && input[86] == 'l' && input[87] == 's' && input[88] == 'e';
    assert input[84..89] == "false";
    ScanWord(input, Cursor(84, 5, 19), Cursor(85, 5, 20), "false");
  }

  lemma StepAt14()
    ensures ScanDefined(ControlSyntaxInput, Cursors[14])
    ensures Scan(ControlSyntaxInput, Cursors[14]) == (Expected[14], Cursors[15])
  {
    Step14();
    assert Cursors[14] == Cursor(84, 5, 19) && Cursors[15] == Cursor(90, 5, 25);
    assert Expected[14] == Token("false", false, 5, 20);
  }

  lemma Step15()
    ensures ScanDefined(ControlSyntaxInput, Cursor(90, 5, 25))
    ensures Scan(ControlSyntaxInput, Cursor(90, 5, 25)) == (Token(";", false, 5, 25), Cursor(91, 5, 26))
  {
    var input := ControlSyntaxInput;
    assert Skip(input, Cursor(90, 5, 25)) == Cursor(90, 5, 25);
    assert Current(input, Cursor(90, 5, 25)) == ";";
    IsLetterOnChar(';');
  }

  lemma StepAt15()
    ensures ScanDefined(ControlSyntaxInput, Cursors[15])
    ensures Scan(ControlSyntaxInput, Cursors[15]) == (Expected[15], Cursors[16])
  {
    Step15();
    assert Cursors[15] == Cursor(90, 5, 25) && Cursors[16] == Cursor(91, 5, 26);
    assert Expected[15] == Token(";", false, 5, 25);
  }

  lemma Spaces16()
    ensures SpacesAt(ControlSyntaxInput, 91, 8)
  {
    var input := ControlSyntaxInput;
    assert input[98] == ' ' && SpacesAt(input, 98, 1);
    assert input[97] == ' ' && SpacesAt(input, 97, 2);
    assert input[96] == ' ' && SpacesAt(input, 96, 3);
    assert input[95] == ' ' && SpacesAt(input, 95, 4);
    assert input[94] == ' ' && SpacesAt(input, 94, 5);
    assert input[93] == ' ' && SpacesAt(input, 93, 6);
    assert input[92] == ' ' && SpacesAt(input, 92, 7);
    assert input[91] == ' ' && SpacesAt(input, 91, 8);
  }

  lemma Skip16()
    ensures Skip(ControlSyntaxInput, Cursor(91, 5, 26)) == Cursor(100, 6, 9)
  {
    var input := ControlSyntaxInput;
    assert input[90] == '\n';
    Spaces16();
    assert input[99] == '}';
    assert CharAt(input, 99) == "}";
    SkipNewlineSpacesThenStop(input, Cursor(91, 5, 26), 8);
  }

  lemma Step16()
    ensures ScanDefined(ControlSyntaxInput, Cursor(91, 5, 26))
    ensures Scan(ControlSyntaxInput, Cursor(91, 5, 26)) == (Token("}", false, 6, 9), Cursor(101, 6, 10))
  {
    var input := ControlSyntaxInput;
    Skip16();
    assert Current(input, Cursor(100, 6, 9)) == "}";
    IsLetterOnChar('}');
  }

  lemma StepAt16()
    ensures ScanDefined(ControlSyntaxInput, Cursors[16])
    ensures Scan(ControlSyntaxInput, Cursors[16]) == (Expected[16], Cursors[17])
  {
    Step16();
    assert Cursors[16] == Cursor(91, 5, 26) && Cursors[17] == Cursor(101, 6, 10);
    assert Expected[16] == Token("}", false, 6, 9);
  }

  lemma Spaces17()
    ensures SpacesAt(ControlSyntaxInput, 101, 8)
  {
    var input := ControlSyntaxInput;
    assert input[108] == ' ' && SpacesAt(input, 108, 1);
    assert input[107] == ' ' && SpacesAt(input, 107, 2);
    assert input[106] == ' ' && SpacesAt(input, 106, 3);
    assert input[105] == ' ' && SpacesAt(input, 105, 4);
    assert input[104] == ' ' && SpacesAt(input, 104, 5);
    assert input[103] == ' ' && SpacesAt(input, 103, 6);
    assert input[102] == ' ' && SpacesAt(input, 102, 7);
    assert input[101] == ' ' && SpacesAt(input, 101, 8);
  }

  lemma Skip17()
    ensures Skip(ControlSyntaxInput, Cursor(101, 6, 10)) == Cursor(110, 7, 9)
  {
    var input := ControlSyntaxInput;
    assert input[100] == '\n';
    Spaces17();
    assert |input| == 109;
    assert CharAt(input, 109) == "";
    SkipNewlineSpacesThenStop(input, Cursor(101, 6, 10), 8);
  }

  lemma Step17()
    ensures ScanDefined(ControlSyntaxInput, Cursor(101, 6, 10))
    ensures Scan(ControlSyntaxInput, Cursor(101, 6, 10)) == (Token("", false, 7, 9), Cursor(111, 7, 10))
  {
    var input := ControlSyntaxInput;
    Skip17();
    assert Current(input, Cursor(110, 7, 9)) == "";
    IsLetterEmpty();
  }

  lemma StepAt17()
    ensures ScanDefined(ControlSyntaxInput, Cursors[17])
    ensures Scan(ControlSyntaxInput, Cursors[17]) == (Expected[17], Cursors[18])
  {
    Step17();
    assert Cursors[17] == Cursor(101, 6, 10) && Cursors[18] == Cursor(111, 7, 10);
    assert Expected[17] == Token("", false, 7, 9);
  }

  /** Past the end of the input every cursor is lexable. */
  lemma EndLexable()
    ensures Lexable(ControlSyntaxInput, Cursors[18])
  {
    assert |ControlSyntaxInput| == 109;
    ExhaustedLexable(ControlSyntaxInput, Cursors[18]);
  }

  /** Chaining the steps: the first 18 tokens from the first cursor. */
  lemma ExpectedTokens()
    ensures Lexable(ControlSyntaxInput, Cursors[0])
    ensures Tokens(ControlSyntaxInput, Cursors[0], 18) == Expected
  {
    forall k | 0 <= k < 18
      ensures ScanDefined(ControlSyntaxInput, Cursors[k]) && Scan(ControlSyntaxInput, Cursors[k]) == (Expected[k], Cursors[k + 1])
    {
      if k == 0 { StepAt0(); }
      else if k == 1 { StepAt1(); }
      else if k == 2 { StepAt2(); }
      else if k == 3 { StepAt3(); }
      else if k == 4 { StepAt4(); }
      else if k == 5 { StepAt5(); }
      else if k == 6 { StepAt6(); }
      else if k == 7 { StepAt7(); }
      else if k == 8 { StepAt8(); }
      else if k == 9 { StepAt9(); }
      else if k == 10 { StepAt10(); }
      else if k == 11 { StepAt11(); }
      else if k == 12 { StepAt12(); }
      else if k == 13 { StepAt13(); }
      else if k == 14 { StepAt14(); }
      else if k == 15 { StepAt15(); }
      else if k == 16 { StepAt16(); }
      else { StepAt17(); }
    }
    EndLexable();
    TokensFrom(ControlSyntaxInput, Cursors, Expected);
  }

  /** The test's expectation: from a fresh lexer the first 18 tokens are the
      keywords, names, numbers and punctuation of the program, one after the
      other, and then the end-of-input token with the empty literal. */
  lemma ControlSyntax()
    ensures Lexable(ControlSyntaxInput, New())
    ensures Literals(Tokens(ControlSyntaxInput, New(), 18)) ==
      ["if", "(", "5", "<", "10", ")", "{", "return", "true", ";",
       "}", "else", "{", "return", "false", ";", "}", ""]
  {
    ExpectedTokens();
    ExpectedLiterals();
    assert Cursors[0] == New();
  }

  lemma ExpectedLiterals()
    ensures Literals(Expected) ==
      ["if", "(", "5", "<", "10", ")", "{", "return", "true", ";",
       "}", "else", "{", "return", "false", ";", "}", ""]
  {
  }

  /** The control-syntax test as the source runs it: a `Lexer` built on the
      input and asked for 18 tokens, whose literals are checked. */
  method ControlSyntaxOnLexer() returns (literals: seq<seq<char>>)
    ensures literals ==
      ["if", "(", "5", "<", "10", ")", "{", "return", "true", ";",
       "}", "else", "{", "return", "false", ";", "}", ""]
  {
    ControlSyntax();
    var ts := MonkeyLexer.Run(ControlSyntaxInput, 18);
    literals := Literals(ts);
  }
}
