# Monkey lexer in Dafny

This project models the lexer of the Monkey language interpreter: the
`Lexer` struct of `src/lexer/lexer.rs`, which turns program text into one
token per `next_token` call and tracks the line and the column as it goes,
and the two character classifiers `is_letter` and `is_digit` of
`src/utils.rs`.

- `utils.dfy` (module `Utils`) holds `is_letter`, `is_digit` and Rust's
  `char::is_whitespace`, with lemmas on what they accept. `is_letter`
  compares whole strings, so it is modelled with a lexicographic order on
  strings (`LexLe`).
- `lexer_spec.dfy` (module `LexerSpec`) describes each scanner as a
  function from the input and a cursor (`pos`, `line`, `column`) to what it
  returns and the cursor it leaves. The lemmas say what the scanners mean:
  - which characters whitespace skipping passes over, and how it counts
    lines and columns;
  - that identifier and number runs are maximal slices of the input;
  - what a string literal holds;
  - how `==` and `!=` are read;
  - that the end of input is sticky;
  - that token lines never decrease.
- `lexer.dfy` (module `MonkeyLexer`) is the `Lexer` struct as a class with
  the struct's fields. Each method is proved to change those fields exactly
  as the matching `LexerSpec` function changes a cursor, and to keep the
  struct's invariant (`Valid`):
  - `read_pos` is `pos + 1`;
  - `current_char` is the character at `pos - 1`, or empty past the end.

  The recursion of `skip_whitespace` is a `while` loop here. `Run` is the
  loop of the source's tests: a fresh lexer and `n` calls of `next_token`.
- `lexer_examples.dfy` (module `LexerExamples`) holds concrete runs. The
  main one is the source's control-syntax test, with the 18 literals it
  expects. It is proved once on the specification (`ControlSyntax`) and
  once on the class (`ControlSyntaxOnLexer`).

An unterminated string does not scan to the end of the input. Once the
input is used up, `current_char` is the empty string, which never equals
`"\""`, so the loop at src/lexer/lexer.rs:81-83 never ends (a debug build
panics once the `u8` column overflows; see the first line of the
section on what is left out). The model follows the code: reading a string requires a
closing double quote (`QuoteFrom`, `ScanDefined`, `Lexable`).

A token's column can be larger than the previous token's column even when
the token starts a new line: a newline sets the column back to 0, and the
spaces after it move it on again (`ColumnCanGrowOnNewLine`).

## Model

| member | source | states |
|---|---|---|
| Utils.LexLe | src/utils.rs:3-4 | the `<=` on `String` that `is_letter` uses: lexicographic order on whole strings, the empty string below every other |
| Utils.IsLetter | src/utils.rs:2-5 | `is_letter` itself: the three whole-string comparisons `"a" <= s <= "z"`, `"A" <= s <= "Z"` and `s == "_"`, with `LexLe` for `<=` |
| Utils.IsDigit | src/utils.rs:7-13 | `is_digit` itself: the first character of `s`, if there is one, is a decimal digit; the empty string is no digit |
| Utils.IsWhitespace | src/lexer/lexer.rs:120 | `char::is_whitespace`, the test `skip_whitespace` makes: the characters with the Unicode White_Space property |
| LexerSpec.CharAt | src/lexer/lexer.rs:37-42 | `get_char` on a cursor's input: the character at the index as a one-character string, or the empty string outside the input |
| LexerSpec.Advance | src/lexer/lexer.rs:30-35 | `read_char` on a cursor: `pos` and `column` move on by one, the line stays |
| LexerSpec.New | src/lexer/lexer.rs:17-28 | the cursor `new` leaves: the fields start at `pos` 0, line 1, column 0, and one `read_char` follows |
| Utils.IsLetterOnChar | src/utils.rs:2-5 | on a one-character string, `is_letter` holds iff the character is an ASCII letter or `_` |
| Utils.IsLetterExactly | src/utils.rs:2-5 | on strings of any length, `is_letter` holds exactly for `"_"` and for non-empty strings starting in `a`..`y` or `A`..`Y`, and for `"z"` and `"Z"` themselves |
| Utils.IsLetterEmpty | src/utils.rs:3-4 | `is_letter("")` is false, which stops the identifier loop at end of input |
| Utils.IsLetterAcceptsLongerStrings | src/utils.rs:3-4 | because the comparison is on whole strings, `"ab"` and `"Yes"` pass and `"za"` does not |
| Utils.IsDigitExactly | src/utils.rs:7-13 | `is_digit(s)` holds iff `s` is non-empty and starts with `0`..`9`; `is_digit("")` is false |
| Utils.LetterDigitDisjoint | src/utils.rs:2-13 | no string is both a letter and a digit, so the order of the first two arms of `next_token` does not matter |
| Utils.WhitespaceFacts | src/lexer/lexer.rs:118-121 | newline, space and tab are whitespace; letters, digits, `"` and the operator characters are not |
| LexerSpec.Skip | src/lexer/lexer.rs:117-132 | whitespace skipping stops on a character that is not whitespace, or at end of input; `pos` and `line` never decrease |
| LexerSpec.SkipRun | src/lexer/lexer.rs:117-132 | every character skipped is whitespace |
| LexerSpec.SkipLines | src/lexer/lexer.rs:124-127 | `line` grows by exactly the number of newlines skipped |
| LexerSpec.SkipColumns | src/lexer/lexer.rs:124-130 | `column` moves as reading the skipped run does: one per character, after setting it to 0 on a newline |
| LexerSpec.SkipAccounting | src/lexer/lexer.rs:117-132 | the skipped run lies within the input and is all whitespace; the line and column change as above |
| LexerSpec.SkipLineAndColumn | src/lexer/lexer.rs:117-132 | with no newline skipped, `column` grows by the number of characters skipped; otherwise it is one plus the number of characters after the last newline |
| LexerSpec.ColumnWithoutNewline | src/lexer/lexer.rs:33 | reading characters without a newline moves the column by their number |
| LexerSpec.ColumnAfterLastNewline | src/lexer/lexer.rs:124-126 | after the last newline read, the column is one plus the number of characters read after it |
| LexerSpec.RunEnd | src/lexer/lexer.rs:96-98 | the end of the run is the first index whose character fails the predicate; every character before it passes |
| LexerSpec.ReadRun | src/lexer/lexer.rs:94-115 | `read_identifier` and `read_digit` return `input[start..end]` for a maximal run; afterwards the current character fails the predicate, the line is unchanged, and the column has moved by the run's length |
| LexerSpec.QuoteEnd | src/lexer/lexer.rs:81-83 | the index where the string loop stops holds a double quote, and none comes before it |
| LexerSpec.QuoteEndFirst | src/lexer/lexer.rs:81-83 | any double quote up to that index is that index |
| LexerSpec.ReadStr | src/lexer/lexer.rs:78-92 | `read_string` moves past both quotes and the content; the line is unchanged; the column grows by the content's length plus 2 |
| LexerSpec.ReadStrLiteral | src/lexer/lexer.rs:78-92 | the literal is the text strictly between the opening quote and the next double quote, and holds no double quote |
| LexerSpec.Scan | src/lexer/lexer.rs:48-76 | every call of `next_token` moves `pos` forward; the token's line is the line after whitespace skipping, which the call leaves unchanged |
| LexerSpec.ScanOperators | src/lexer/lexer.rs:59-72 | `=` then `=` gives `"=="` and `!` then `=` gives `"!="`, two steps; any other character that starts no longer token is its own literal, one step; the column is the column after skipping |
| LexerSpec.ScanIdentifier | src/lexer/lexer.rs:54 | a letter starts a token: the longest run of letters, sliced from the input, not a string, with no letter after it and on the same line |
| LexerSpec.ScanNumber | src/lexer/lexer.rs:55 | a digit starts a token: the longest run of digits, sliced from the input, with no digit after it |
| LexerSpec.ScanString | src/lexer/lexer.rs:56-58 | a double quote starts a string token holding the text up to the next double quote; the line does not advance even over newlines inside it |
| LexerSpec.ScanConsumes | src/lexer/lexer.rs:48-76 | before the end of input, the literal is exactly the text consumed after whitespace, or that text without its quotes for a string |
| LexerSpec.ExhaustedIsSticky | src/lexer/lexer.rs:69-72 | once the input is used up, `next_token` returns the empty literal, not as a string, and reads one more absent character |
| LexerSpec.NoQuotesLexable | src/lexer/lexer.rs:78-92 | an input without double quotes can be lexed for ever |
| LexerSpec.Tokens | src/lexer/lexer.rs:170-173 | `n` calls give exactly `n` tokens |
| LexerSpec.Walk | src/lexer/lexer.rs:170-173 | after `n` calls, `pos` has moved by at least `n`, and lexing can go on |
| LexerSpec.TokensSnoc | src/lexer/lexer.rs:170-173 | one more call appends the token scanned from where the first `n` calls left the cursor |
| LexerSpec.WalkSnoc | src/lexer/lexer.rs:170-173 | one more call moves on from where the first `n` calls left the cursor |
| LexerSpec.EndOfInputReached | src/lexer/lexer.rs:69-72 | after at most (input length + 1 - `pos`) tokens, every token has the empty literal and is no string, and each stands one column right of the one before |
| LexerSpec.LinesNondecreasing | src/lexer/lexer.rs:75 | token lines never decrease along the stream and never fall below the starting line |
| MonkeyLexer.Lexer.constructor | src/lexer/lexer.rs:17-28 | after `new`, `pos` is 1, `read_pos` 2, `line` 1, `column` 1, and `current_char` is the first character, or empty for empty input |
| MonkeyLexer.Lexer.ReadChar | src/lexer/lexer.rs:30-35 | the character at `pos` becomes current; `pos`, `read_pos` and `column` move on by one; the invariant holds afterwards |
| MonkeyLexer.Lexer.GetChar | src/lexer/lexer.rs:37-42 | the result has at most one character; it is empty iff the index is outside the input, and otherwise it is the character at the index |
| MonkeyLexer.Lexer.PeekChar | src/lexer/lexer.rs:44-46 | the result is the character after the current one, or empty; it is empty at end of input; no field changes |
| MonkeyLexer.Lexer.SkipWhitespace | src/lexer/lexer.rs:117-132 | the new position, line and column are those of `LexerSpec.Skip` |
| MonkeyLexer.Lexer.ReadIdentifier | src/lexer/lexer.rs:94-103 | returns the literal and leaves the state that `LexerSpec.ReadRun` gives with `is_letter` |
| MonkeyLexer.Lexer.ReadDigit | src/lexer/lexer.rs:105-115 | returns the literal and leaves the state that `LexerSpec.ReadRun` gives with `is_digit` |
| MonkeyLexer.Lexer.ReadString | src/lexer/lexer.rs:78-92 | returns the literal and leaves the state that `LexerSpec.ReadStr` gives |
| MonkeyLexer.Lexer.NextToken | src/lexer/lexer.rs:48-76 | returns the token and leaves the state that `LexerSpec.Scan` gives |
| MonkeyLexer.Run | src/lexer/lexer.rs:170-173 | `n` calls of `next_token` on a fresh lexer return `LexerSpec.Tokens` of the input |
| LexerExamples.ControlSyntax | src/lexer/lexer.rs:141-174 | the test input can be lexed, and its first 18 literals are `if ( 5 < 10 ) { return true ; } else { return false ; }` and the empty end-of-input literal |
| LexerExamples.ControlSyntaxOnLexer | src/lexer/lexer.rs:141-174 | the same 18 literals from a `Lexer` object asked for 18 tokens |
| LexerExamples.IdentifierStopsAtDigit | src/lexer/lexer.rs:94-115 | a word of letters followed by digits gives two tokens, the word and the number, then the end of input |
| LexerExamples.MaximalMunch | src/lexer/lexer.rs:94-103 | a whole word of letters is one token, then the end of input |
| LexerExamples.BlankLinesBeforeWord | src/lexer/lexer.rs:117-132 | after `k` newlines at the start of the input, the identifier is on line `k + 1`, column 1 |
| LexerExamples.StringKeepsLine | src/lexer/lexer.rs:78-92 | a string with a newline inside stays on line 1; the column moves past the newline |
| LexerExamples.WordOnNextLine | src/lexer/lexer.rs:117-132 | a word, a newline, `k` spaces and a second word give the first word at line 1, column 1, and the second at line 2, column `k + 1`, whatever the first word's length |
| LexerExamples.ColumnCanGrowOnNewLine | src/lexer/lexer.rs:117-132 | on `a`, a newline, six spaces and `b`, the token `b` is on line 2 at column 7, right of the token `a` at column 1 of line 1 |

## Left out

- The `u8` types of `line` and `column` and the `i32` type of `pos` and `read_pos`: the model uses unbounded integers, so it does not model overflow (a panic in debug builds, wrap-around in release builds).
- `token::Token::new` and `TokenType`: the keyword table and the token-kind classification live in the `token` module (src/lexer/lexer.rs:1), which is not part of this model. A token is the four arguments `next_token` passes to `Token::new`, so the control-syntax test is checked on its literals only, not on its token kinds.
- MonkeyLexer.Lexer.ReadString: requires a closing double quote after the opening one. The source loops for ever without one (a debug build panics once the `u8` column overflows, as the first line of this section says), and that divergence is not modelled.
- MonkeyLexer.Lexer.NextToken: requires `ScanDefined`, meaning that if whitespace skipping stops on a double quote, a closing quote follows. This is the same non-termination as for `read_string`.
- MonkeyLexer.Run: requires `Lexable`, which asks that every call up to the end of the input is defined, not only the `n` calls `Run` makes. `LexerSpec.Tokens` and `LexerSpec.Walk` require the same. So an input whose unterminated string lies beyond the `n`-th token is outside the model: on `a"b` the source returns the token `a` on its first call, but the model does not cover that input at all.
- MonkeyLexer.Lexer.ReadIdentifier: requires `pos <= |input| + 1`. Beyond that the slice at src/lexer/lexer.rs:102 would panic. `next_token` only calls it on a letter, where this always holds. The same holds for MonkeyLexer.Lexer.ReadDigit and src/lexer/lexer.rs:114.
- String building with `fold` and `format!`, re-collecting the input into a `Vec<char>`, and the linear cost of `chars().nth`: the model uses plain sequence slices and indexing, which give the same strings.
- The `Debug` and `Clone` derives, and the `assert_eq!` checks of the tests, beyond the literals.
