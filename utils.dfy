// Character classifiers of the Monkey lexer (src/utils.rs).
//
// The lexer keeps its current character as a string of zero or one
// characters, the empty string standing for "end of input"; both
// classifiers therefore take a string, not a char.

module Utils {

  /** Rust's `Ord` on `String`: lexicographic order on the UTF-8 bytes, which
      is the same as lexicographic order on the code points. `a <= b`. */
  predicate LexLe(a: seq<char>, b: seq<char>)
    decreases |a|
  {
    a == [] || (b != [] && (a[0] < b[0] || (a[0] == b[0] && LexLe(a[1..], b[1..]))))
  }

  /** `is_letter`: "a" <= s <= "z" || "A" <= s <= "Z" || s == "_",
      all three being comparisons of whole strings. */
  predicate IsLetter(s: seq<char>) {
    (LexLe("a", s) && LexLe(s, "z")) || (LexLe("A", s) && LexLe(s, "Z")) || s == "_"
  }

  /** Rust's `char::is_digit(10)`: only the ASCII decimal digits. */
  predicate IsDecimalDigit(c: char) {
    '0' <= c <= '9'
  }

  /** `is_digit`: the first character exists and is a decimal digit. */
  predicate IsDigit(s: seq<char>) {
    match if s == [] then None else Some(s[0])
    case Some(n) => IsDecimalDigit(n)
    case None => false
  }

  datatype Option<T> = None | Some(value: T)

  /** Rust's `char::is_whitespace`: the characters with the Unicode
      White_Space property. */
  predicate IsWhitespace(c: char) {
    ('\t' <= c <= '\r') || c == ' ' || c == '\U{85}' || c == '\U{A0}' || c == '\U{1680}'
    || ('\U{2000}' <= c <= '\U{200A}') || c == '\U{2028}' || c == '\U{2029}'
    || c == '\U{202F}' || c == '\U{205F}' || c == '\U{3000}'
  }

  /** The character-range test that `is_letter` is meant to be. */
  predicate IsAsciiLetter(c: char) {
    ('a' <= c <= 'z') || ('A' <= c <= 'Z') || c == '_'
  }

  /** `s <= t` for a one-character `t`: `s` starts below `t[0]`, or is `t` itself
      (any longer string starting with `t[0]` sorts after `t`). */
  lemma LexLeOneChar(s: seq<char>, t: seq<char>)
    requires |t| == 1
    ensures LexLe(s, t) <==> s == [] || s[0] < t[0] || s == t
  {
    if s != [] && s[0] == t[0] {
      assert LexLe(s, t) <==> LexLe(s[1..], []);
      assert LexLe(s[1..], []) <==> s[1..] == [];
      assert s[1..] == [] <==> s == t;
    }
  }

  /** `t <= s` for a one-character `t`: `s` is non-empty and starts at or
      above `t[0]`. */
  lemma OneCharLexLe(t: seq<char>, s: seq<char>)
    requires |t| == 1
    ensures LexLe(t, s) <==> s != [] && t[0] <= s[0]
  {
    if s != [] && t[0] == s[0] {
      assert LexLe(t[1..], s[1..]);
    }
  }

  /** What `is_letter` accepts on strings of any length: `"_"`, and every
      non-empty string whose first character lies in `'a'..'z'` or `'A'..'Z'`,
      except that after a leading `'z'` or `'Z'` nothing may follow. */
  lemma IsLetterExactly(s: seq<char>)
    ensures IsLetter(s) <==>
      s == "_" ||
      (s != [] && (('a' <= s[0] < 'z') || ('A' <= s[0] < 'Z') || s == "z" || s == "Z"))
  {
    LexLeOneChar(s, "z");
    LexLeOneChar(s, "Z");
    OneCharLexLe("a", s);
    OneCharLexLe("A", s);
  }

  /** On the zero- and one-character strings the lexer passes in, `is_letter`
      is exactly the ASCII letter-or-underscore test. */
  lemma IsLetterOnChar(c: char)
    ensures IsLetter([c]) <==> IsAsciiLetter(c)
  {
    IsLetterExactly([c]);
  }

  /** The empty end-of-input string is not a letter: this stops the
      identifier loop at the end of the input. */
  lemma IsLetterEmpty()
    ensures !IsLetter([])
  {
    IsLetterExactly([]);
  }

  /** Because the comparison is on whole strings, longer strings pass too. */
  lemma IsLetterAcceptsLongerStrings()
    ensures IsLetter("ab") && IsLetter("Yes") && !IsLetter("za")
  {
    IsLetterExactly("ab");
    IsLetterExactly("Yes");
    IsLetterExactly("za");
  }

  /** `is_digit` holds exactly of the non-empty strings whose first character
      is an ASCII decimal digit; in particular not of the empty string. */
  lemma IsDigitExactly(s: seq<char>)
    ensures IsDigit(s) <==> |s| >= 1 && '0' <= s[0] <= '9'
    ensures !IsDigit([])
  {
  }

  /** No string is both a letter and a digit, so the order in which the lexer
      tries the two classifiers does not matter. */
  lemma LetterDigitDisjoint(s: seq<char>)
    ensures !(IsLetter(s) && IsDigit(s))
  {
    IsLetterExactly(s);
  }

  /** None of the characters that can start a token other than whitespace is
      whitespace; the newline and the space are. */
  lemma WhitespaceFacts(c: char)
    ensures IsWhitespace('\n') && IsWhitespace(' ') && IsWhitespace('\t')
    ensures IsAsciiLetter(c) || IsDecimalDigit(c) || c in "\"=!<>+-*/(){};,"
      ==> !IsWhitespace(c)
  {
  }
}
