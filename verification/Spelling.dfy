/** How tokens are spelled, said without the scanning functions (src/lex/lexer.c:55-97, 104-351). */
module Spelling {
  import opened SourceText
  import opened Lexing

  // Strings

  /** How many backslashes stand directly before k, from i on. */
  function Slashes(text: string, i: nat, k: nat): nat
    requires i <= k <= |text|
    decreases k
  {
    if i < k && text[k - 1] == '\\' then 1 + Slashes(text, i, k - 1) else 0
  }

  predicate Escaped(text: string, i: nat, k: nat)
    requires i <= k <= |text|
  {
    Slashes(text, i, k) % 2 == 1
  }

  /** From i the content of a string reaches e: every quote and newline before is escaped, and e
      is the end, a NUL, or a quote or newline that is not. */
  ghost predicate ContentEnds(text: string, i: nat, e: nat) {
    && i <= e <= |text|
    && (forall k :: i <= k < e ==>
          text[k] != '\0' && (text[k] == '"' || text[k] == '\n' ==> Escaped(text, i, k)))
    && (Peek(text, e) == '\0' || ((text[e] == '"' || text[e] == '\n') && !Escaped(text, i, e)))
  }

  /** Two bytes in, the run of backslashes has the same parity. */
  lemma {:induction false} SlashesSkip(text: string, i: nat, k: nat)
    requires i + 2 <= k <= |text| && text[i] == '\\'
    ensures Slashes(text, i, k) % 2 == Slashes(text, i + 2, k) % 2
    decreases k
  {
    if k == i + 2 {
      assert text[i + 1] == '\\' ==> Slashes(text, i, i + 1) == 1 + Slashes(text, i, i);
    } else if text[k - 1] == '\\' {
      SlashesSkip(text, i, k - 1);
    }
  }

  lemma {:induction false} SlashesFrom(text: string, i: nat, k: nat)
    requires i + 1 <= k <= |text| && text[i] != '\\'
    ensures Slashes(text, i, k) == Slashes(text, i + 1, k)
    decreases k
  {
    if k > i + 1 {
      SlashesFrom(text, i, k - 1);
    }
  }

  lemma {:induction false} StopIsContentEnd(text: string, i: nat)
    requires i <= |text|
    ensures ContentEnds(text, i, StringStop(text, i))
    decreases |text| - i
  {
    var c, e := Peek(text, i), StringStop(text, i);
    if c == '\0' || c == '"' || c == '\n' {
    } else if c == '\\' && Peek(text, i + 1) != '\0' {
      StopIsContentEnd(text, i + 2);
      forall k | i + 2 <= k <= e
        ensures Escaped(text, i, k) == Escaped(text, i + 2, k)
      {
        SlashesSkip(text, i, k);
      }
      assert Slashes(text, i, i + 1) == 1 + Slashes(text, i, i);
    } else if c == '\\' {
      assert e == i + 1;
    } else {
      StopIsContentEnd(text, i + 1);
      forall k | i + 1 <= k <= e
        ensures Escaped(text, i, k) == Escaped(text, i + 1, k)
      {
        SlashesFrom(text, i, k);
      }
    }
  }

  lemma OneContentEnd(text: string, i: nat, a: nat, b: nat)
    requires a <= b && ContentEnds(text, i, a) && ContentEnds(text, i, b)
    ensures a == b
  {
  }

  /** A string stops at the one place where its content ends: an escaped quote is no end, and an
      unescaped one is. */
  lemma {:induction false} StringStopsExactly(text: string, i: nat, e: nat)
    requires i <= |text|
    ensures e == StringStop(text, i) <==> ContentEnds(text, i, e)
  {
    hide StringStop;
    StopIsContentEnd(text, i);
    var s := StringStop(text, i);
    if ContentEnds(text, i, e) {
      if e <= s {
        OneContentEnd(text, i, e, s);
      } else {
        OneContentEnd(text, i, s, e);
      }
    }
  }

  /** A backslash before each quote, backslash and newline. */
  function Escape(s: string): string {
    if s == [] then []
    else (if s[0] == '"' || s[0] == '\\' || s[0] == '\n' then ['\\', s[0]] else [s[0]]) + Escape(s[1..])
  }

  lemma {:induction false} EscapeStops(before: string, s: string)
    requires NulFree(s)
    ensures StringStop(before + Escape(s) + "\"", |before|) == |before| + |Escape(s)|
    decreases s
  {
    var text := before + Escape(s) + "\"";
    if s == [] {
      assert Peek(text, |before|) == '"';
    } else {
      var head := if s[0] == '"' || s[0] == '\\' || s[0] == '\n' then ['\\', s[0]] else [s[0]];
      EscapeStops(before + head, s[1..]);
      assert before + head + Escape(s[1..]) + "\"" == text;
      assert text[|before|] == head[0] && (|head| == 2 ==> text[|before| + 1] == head[1]);
    }
  }

  /** Any text without NUL, escaped and quoted, is one string token. */
  lemma {:induction false} QuotedLexes(s: string)
    requires NulFree(s)
    ensures
      var text := "\"" + Escape(s) + "\"";
      var t := Lexeme(Str, 0, 1, |Escape(s)|, 1, 1);
      Lexes(text, [t, Lexeme(Eof, |text|, |text|, 0, LineOf(text, |text|), ColumnOf(text, |text|))])
  {
    var text := "\"" + Escape(s) + "\"";
    var t := Lexeme(Str, 0, 1, |Escape(s)|, 1, 1);
    EscapeStops("\"", s);
    assert text[0] == '"' && text[|text| - 1] == '"';
    assert TokenAt(text, t);
    OneToken(text, t);
  }

  /** A token over a whole text is its lexing. */
  lemma {:induction false} OneToken(text: string, t: Lexeme)
    requires TokenAt(text, t) && t.offset == 0 && EndOf(t) == |text| && t.line == 1 && t.column == 1
    requires !IsSpace(text[0]) && !CommentAt(text, 0)
    ensures Lexes(text, [t, Lexeme(Eof, |text|, |text|, 0, LineOf(text, |text|), ColumnOf(text, |text|))])
  {
    hide TokenAt, LineOf, IsSpace;
    TokenInside(text, t);
    var ts := [t, Lexeme(Eof, |text|, |text|, 0, LineOf(text, |text|), ColumnOf(text, |text|))];
    assert ts[..1] == [t] && [t][..0] == [];
    FirstPlace(text);
    assert Placed(text, t);
    assert SkipEnd(text, 0) == 0 && SkipEnd(text, |text|) == |text| by { NothingToSkip(text); }
    assert LexedTo(text, []);
    assert LexedTo(text, [t]);
  }

  lemma FirstPlace(text: string)
    ensures LineOf(text, 0) == 1 && ColumnOf(text, 0) == 1
  {
  }

  lemma NothingToSkip(text: string)
    requires text != [] && !IsSpace(text[0]) && !CommentAt(text, 0)
    ensures SkipEnd(text, 0) == 0 && SkipEnd(text, |text|) == |text|
  {
  }

  // Words and signs

  const KEYWORDS: seq<string> := [
    "fn", "pfn", "const", "pconst", "let", "mut", "return", "if", "else", "while", "loop", "for", "in",
    "struct", "pstruct", "import", "as", "int", "u8", "byte", "bool", "str", "void", "ok", "err", "ptr",
    "alloc", "zalloc", "addr", "deref", "free", "defer", "try", "zone", "slice", "true", "false", "null"
  ]

  const SIGNS: string := "(){}[]:;,.+-*/%!=<>"

  const PAIRS: seq<string> := ["..", "!=", "==", "<=", ">=", "&&", "||"]

  predicate Letter(c: char) { 'a' <= c <= 'z' || 'A' <= c <= 'Z' || c == '_' }

  /** A word is one token, a keyword exactly if it is in the list. */
  lemma {:induction false} WordLexes(s: string)
    requires s != [] && Letter(s[0]) && forall k :: 0 <= k < |s| ==> Letter(s[k]) || '0' <= s[k] <= '9'
    ensures
      var t := Lexeme(if s in KEYWORDS then Keyword(s) else Ident, 0, 0, |s|, 1, 1);
      Lexes(s, [t, Lexeme(Eof, |s|, |s|, 0, LineOf(s, |s|), ColumnOf(s, |s|))])
  {
    var t := Lexeme(if s in KEYWORDS then Keyword(s) else Ident, 0, 0, |s|, 1, 1);
    assert IsKeyword(s) <==> s in KEYWORDS;
    assert s[0..|s|] == s;
    assert WordRun(s, 0, |s|);
    assert TokenAt(s, t);
    OneToken(s, t);
  }

  /** Each sign and each pair of signs is one token. */
  lemma {:induction false} SignLexes(s: string)
    requires (|s| == 1 && s[0] in SIGNS) || s in PAIRS
    ensures
      var t := Lexeme(Punct(s), 0, 0, |s|, 1, 1);
      Lexes(s, [t, Lexeme(Eof, |s|, |s|, 0, LineOf(s, |s|), ColumnOf(s, |s|))])
  {
    var t := Lexeme(Punct(s), 0, 0, |s|, 1, 1);
    assert s[0..|s|] == s;
    SignIsPunct(s);
    assert TokenAt(s, t);
    OneToken(s, t);
  }

  lemma SignIsPunct(s: string)
    requires (|s| == 1 && s[0] in SIGNS) || s in PAIRS
    ensures IsPunct(s) && !IsSpace(s[0]) && !CommentAt(s, 0) && (|s| == 1 ==> !IsPair(s[0], '\0'))
  {
  }

  /** Digits are one number. */
  lemma {:induction false} NumberLexes(s: string)
    requires s != [] && forall k :: 0 <= k < |s| ==> '0' <= s[k] <= '9'
    ensures
      var t := Lexeme(Number, 0, 0, |s|, 1, 1);
      Lexes(s, [t, Lexeme(Eof, |s|, |s|, 0, LineOf(s, |s|), ColumnOf(s, |s|))])
  {
    var t := Lexeme(Number, 0, 0, |s|, 1, 1);
    assert DigitRun(s, 0, |s|);
    assert TokenAt(s, t);
    OneToken(s, t);
  }

  lemma {:induction false} RawStops(text: string, i: nat, e: nat)
    requires i <= e < |text| && text[e] == '`' && forall k :: i <= k < e ==> text[k] != '\0' && text[k] != '`'
    ensures RawStop(text, i) == e
  {
  }

  /** Any text without NUL and backquote, between backquotes, is one string token. */
  lemma {:induction false} RawLexes(s: string)
    requires NulFree(s) && '`' !in s
    ensures
      var text := "`" + s + "`";
      var t := Lexeme(Str, 0, 1, |s|, 1, 1);
      Lexes(text, [t, Lexeme(Eof, |text|, |text|, 0, LineOf(text, |text|), ColumnOf(text, |text|))])
  {
    var text := "`" + s + "`";
    var t := Lexeme(Str, 0, 1, |s|, 1, 1);
    RawStops(text, 1, |s| + 1);
    assert text[0] == '`' && text[|text| - 1] == '`';
    assert TokenAt(text, t);
    OneToken(text, t);
  }

  /** Whitespace and comments are no token: a text of nothing else lexes to its end. */
  lemma {:induction false} BlankLexes(blank: string, comment: string)
    requires forall k :: 0 <= k < |blank| ==> blank[k] in " \t\r\n"
    requires forall k :: 0 <= k < |comment| ==> comment[k] != '\0' && comment[k] != '\n'
    ensures
      var text := blank + "//" + comment;
      Lexes(text, [Lexeme(Eof, |text|, |text|, 0, LineOf(text, |text|), ColumnOf(text, |text|))])
  {
    var text := blank + "//" + comment;
    var ts := [Lexeme(Eof, |text|, |text|, 0, LineOf(text, |text|), ColumnOf(text, |text|))];
    BlankSkipped(text, 0, |blank|);
    CommentSkipped(text, |blank|);
    assert ts[..0] == [] && LexedTo(text, []);
  }

  lemma {:induction false} BlankSkipped(text: string, i: nat, n: nat)
    requires i <= n <= |text| && forall k :: i <= k < n ==> text[k] in " \t\r\n"
    ensures SkipEnd(text, i) == SkipEnd(text, n)
    decreases n - i
  {
    if i < n {
      assert IsSpace(text[i]);
      BlankSkipped(text, i + 1, n);
    }
  }

  lemma {:induction false} CommentSkipped(text: string, i: nat)
    requires i + 2 <= |text| && text[i] == '/' && text[i + 1] == '/'
    requires forall k :: i <= k < |text| ==> text[k] != '\0' && text[k] != '\n'
    ensures SkipEnd(text, i) == |text|
  {
    assert CommentEnd(text, i) == |text|;
    assert SkipEnd(text, |text|) == |text|;
  }
}
