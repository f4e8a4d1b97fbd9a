/** What a lexer run over a text has to produce. */
module Lexing {
  import opened SourceText

  /** Keywords and punctuation are known by their spelling. */
  datatype Kind = Eof | Ident | Number | Str | Keyword(word: string) | Punct(sign: string)

  /** A token with its place; `start` and `length` delimit the lexeme in the text. */
  datatype Lexeme = Lexeme(kind: Kind, offset: nat, start: nat, length: nat, line: nat, column: nat)

  function Peek(text: string, i: nat): char { if i < |text| then text[i] else '\0' }

  predicate IsSpace(c: char) { c == ' ' || c == '\t' || c == '\r' || c == '\n' }
  predicate IsDigit(c: char) { '0' <= c <= '9' }
  predicate IsAlpha(c: char) { 'A' <= c <= 'Z' || 'a' <= c <= 'z' }
  predicate StartsWord(c: char) { IsAlpha(c) || c == '_' }
  predicate InWord(c: char) { StartsWord(c) || IsDigit(c) }

  predicate IsKeyword(s: string) {
    s in {"fn", "pfn", "const", "pconst", "let", "mut", "return", "if", "else", "while", "loop", "for", "in",
          "struct", "pstruct", "import", "as", "int", "u8", "byte", "bool", "str", "void", "ok", "err", "ptr",
          "alloc", "zalloc", "addr", "deref", "free", "defer", "try", "zone", "slice", "true", "false", "null"}
  }

  predicate IsSign(c: char) {
    || c == '(' || c == ')' || c == '{' || c == '}' || c == '[' || c == ']'
    || c == ':' || c == ';' || c == ',' || c == '.'
    || c == '+' || c == '-' || c == '*' || c == '/' || c == '%' || c == '!' || c == '=' || c == '<' || c == '>'
  }

  predicate IsPair(a: char, b: char) {
    || (a == '.' && b == '.')
    || (b == '=' && (a == '!' || a == '=' || a == '<' || a == '>'))
    || (a == '&' && b == '&')
    || (a == '|' && b == '|')
  }

  predicate IsPunct(s: string) {
    (|s| == 1 && IsSign(s[0])) || (|s| == 2 && IsPair(s[0], s[1]))
  }

  predicate CommentAt(text: string, i: nat) { Peek(text, i) == '/' && Peek(text, i + 1) == '/' }

  /** The newline, the NUL or the end that closes a comment. */
  function CommentEnd(text: string, i: nat): (e: nat)
    requires i <= |text|
    ensures i <= e <= |text| && (Peek(text, i) != '\0' && Peek(text, i) != '\n' ==> i < e)
    ensures forall k :: i <= k < e ==> text[k] != '\0' && text[k] != '\n'
    ensures Peek(text, e) == '\0' || Peek(text, e) == '\n'
    decreases |text| - i
  {
    if Peek(text, i) == '\0' || Peek(text, i) == '\n' then i else CommentEnd(text, i + 1)
  }

  /** The first byte that is neither whitespace nor in a comment. */
  function SkipEnd(text: string, i: nat): (e: nat)
    requires i <= |text|
    ensures i <= e <= |text| && !IsSpace(Peek(text, e)) && !CommentAt(text, e)
    ensures forall k :: i <= k < e ==> text[k] != '\0'
    decreases |text| - i
  {
    if IsSpace(Peek(text, i)) then SkipEnd(text, i + 1)
    else if CommentAt(text, i) then SkipEnd(text, CommentEnd(text, i))
    else i
  }

  /** Where a string literal stops: its quote, a newline, a NUL or the end. An escaped byte
      never stops it. */
  function StringStop(text: string, i: nat): (e: nat)
    requires i <= |text|
    ensures i <= e <= |text|
    ensures forall k :: i <= k < e ==> text[k] != '\0'
    decreases |text| - i
  {
    var c := Peek(text, i);
    if c == '\0' || c == '"' || c == '\n' then i
    else if c == '\\' && Peek(text, i + 1) != '\0' then StringStop(text, i + 2)
    else StringStop(text, i + 1)
  }

  function RawStop(text: string, i: nat): (e: nat)
    requires i <= |text|
    ensures i <= e <= |text|
    ensures forall k :: i <= k < e ==> text[k] != '\0' && text[k] != '`'
    ensures Peek(text, e) == '\0' || Peek(text, e) == '`'
    decreases |text| - i
  {
    if Peek(text, i) == '\0' || Peek(text, i) == '`' then i else RawStop(text, i + 1)
  }

  /** The text from a to b is the longest run of digits from a. */
  predicate DigitRun(text: string, a: nat, b: nat) {
    a < b <= |text| && (forall k :: a <= k < b ==> IsDigit(text[k])) && !IsDigit(Peek(text, b))
  }

  predicate WordRun(text: string, a: nat, b: nat) {
    a < b <= |text| && StartsWord(text[a]) && (forall k :: a <= k < b ==> InWord(text[k])) && !InWord(Peek(text, b))
  }

  /** Behind the token: a string's closing delimiter is not part of the lexeme. */
  function EndOf(t: Lexeme): nat { t.start + t.length + if t.kind.Str? then 1 else 0 }

  /** The token spells what its kind says, and no longer token starts there. */
  predicate TokenAt(text: string, t: Lexeme) {
    var o, e := t.offset, EndOf(t);
    && o < e <= |text|
    && t.start == (if t.kind.Str? then o + 1 else o)
    && match t.kind
       case Punct(s) => text[o..e] == s && IsPunct(s) && (|s| == 1 ==> !IsPair(text[o], Peek(text, o + 1)))
       case Number => DigitRun(text, o, e)
       case Ident => WordRun(text, o, e) && !IsKeyword(text[o..e])
       case Keyword(w) => WordRun(text, o, e) && IsKeyword(w) && text[o..e] == w
       case Str => (text[o] == '"' && StringStop(text, o + 1) == e - 1 && text[e - 1] == '"')
                || (text[o] == '`' && RawStop(text, o + 1) == e - 1 && text[e - 1] == '`')
       case Eof => false
  }

  predicate Placed(text: string, t: Lexeme) {
    t.offset <= |text| && t.line == LineOf(text, t.offset) && t.column == ColumnOf(text, t.offset)
  }

  function Reached(ts: seq<Lexeme>): nat { if ts == [] then 0 else EndOf(ts[|ts| - 1]) }

  /** The tokens follow each other with nothing but whitespace and comments between them. */
  predicate LexedTo(text: string, ts: seq<Lexeme>) {
    ts != [] ==>
      var init, t := ts[..|ts| - 1], ts[|ts| - 1];
      LexedTo(text, init) && Reached(init) <= |text| && t.offset == SkipEnd(text, Reached(init)) && TokenAt(text,
        t) && Placed(text, t)
  }

  predicate AtEnd(text: string, t: Lexeme) {
    t.kind == Eof && t.offset == t.start == |text| && t.length == 0 && Placed(text, t)
  }

  /** The whole text is lexed: tokens from end to end, then the end of file. */
  predicate Lexes(text: string, ts: seq<Lexeme>) {
    && ts != []
    && var init := ts[..|ts| - 1];
       LexedTo(text, init) && Reached(init) <= |text| && SkipEnd(text, Reached(init)) == |text| && AtEnd(text,
         ts[|ts| - 1])
  }

  // There is one token at most at an offset

  lemma RunsAgree(text: string, a: nat, b: nat, c: nat)
    requires (DigitRun(text, a, b) && DigitRun(text, a, c)) || (WordRun(text, a, b) && WordRun(text, a, c))
    ensures b == c
  {
  }

  /** The first byte decides between the kinds. */
  lemma {:induction false} KindOf(text: string, t: Lexeme)
    requires TokenAt(text, t)
    ensures var c := text[t.offset];
      && (t.kind.Number? <==> IsDigit(c))
      && (t.kind.Ident? || t.kind.Keyword? <==> StartsWord(c))
      && (t.kind.Str? <==> c == '"' || c == '`')
  {
    hide StringStop, RawStop, IsKeyword;
    if t.kind.Punct? {
      assert text[t.offset..EndOf(t)][0] == text[t.offset];
    }
  }

  lemma {:induction false} PunctOf(text: string, t: Lexeme)
    requires TokenAt(text, t) && t.kind.Punct?
    ensures var o := t.offset;
      t.kind.sign == if IsPair(text[o], Peek(text, o + 1)) then [text[o], Peek(text, o + 1)] else [text[o]]
  {
    var s := t.kind.sign;
    assert text[t.offset..EndOf(t)][0] == text[t.offset];
    if |s| == 2 {
      assert text[t.offset..EndOf(t)][1] == text[t.offset + 1];
    }
  }

  lemma {:induction false} TokensAgree(text: string, t: Lexeme, t': Lexeme)
    requires TokenAt(text, t) && TokenAt(text, t') && t.offset == t'.offset && Placed(text, t) && Placed(text, t')
    ensures t == t'
  {
    hide StringStop, RawStop, IsKeyword, IsPair, IsSign, LineOf, LineStart, DigitRun, WordRun, IsDigit, StartsWord;
    KindOf(text, t);
    KindOf(text, t');
    if t.kind.Punct? {
      PunctOf(text, t);
      PunctOf(text, t');
    } else if !t.kind.Str? {
      RunsAgree(text, t.offset, EndOf(t), EndOf(t'));
    }
  }

  /** Two lexings of a text agree as far as both go. */
  lemma {:induction false} PrefixesAgree(text: string, a: seq<Lexeme>, b: seq<Lexeme>)
    requires LexedTo(text, a) && LexedTo(text, b) && |a| <= |b|
    ensures a == b[..|a|]
    decreases |b|
  {
    hide SkipEnd, TokenAt, Placed;
    if |a| < |b| {
      var b' := b[..|b| - 1];
      PrefixesAgree(text, a, b');
      assert b[..|a|] == b'[..|a|];
    } else if a != [] {
      var a', b' := a[..|a| - 1], b[..|b| - 1];
      PrefixesAgree(text, a', b');
      assert a' == b' by { assert b'[..|a'|] == b'; }
      TokensAgree(text, a[|a| - 1], b[|b| - 1]);
      assert a == a' + [a[|a| - 1]] && b[..|a|] == b' + [b[|b| - 1]];
    } else {
      assert b[..0] == [];
    }
  }

  /** The token behind a prefix starts where the prefix lets it. */
  lemma {:induction false} TokenBehind(text: string, ts: seq<Lexeme>, n: nat)
    requires LexedTo(text, ts) && n < |ts|
    ensures LexedTo(text, ts[..n]) && Reached(ts[..n]) <= |text|
    ensures ts[n].offset == SkipEnd(text, Reached(ts[..n])) && TokenAt(text, ts[n])
    decreases |ts|
  {
    hide SkipEnd, TokenAt, Placed;
    var init := ts[..|ts| - 1];
    if n < |ts| - 1 {
      TokenBehind(text, init, n);
      assert init[..n] == ts[..n];
    }
  }

  /** Lexing is a function of the text. */
  lemma {:induction false} LexingUnique(text: string, a: seq<Lexeme>, b: seq<Lexeme>)
    requires Lexes(text, a) && Lexes(text, b)
    ensures a == b
    decreases |a| > |b|
  {
    hide SkipEnd, TokenAt, LineOf, LineStart, LexedTo;
    var a', b' := a[..|a| - 1], b[..|b| - 1];
    if |a| > |b| {
      LexingUnique(text, b, a);
    } else {
      PrefixesAgree(text, a', b');
      if |a'| < |b'| {
        TokenBehind(text, b', |a'|);
        TokenInside(text, b'[|a'|]);
      } else {
        assert b'[..|a'|] == b';
        assert a == a' + [a[|a'|]] && b == b' + [b[|b'|]];
      }
    }
  }

  lemma TokenInside(text: string, t: Lexeme)
    requires TokenAt(text, t)
    ensures t.offset < |text|
  {
  }

  // Where no token starts

  /** No token starts here: a byte outside the language or a string that is not closed. */
  predicate Stuck(text: string, o: nat) {
    && o < |text|
    && var c := text[o];
       if c == '"' then Peek(text, StringStop(text, o + 1)) != '"'
       else if c == '`' then Peek(text, RawStop(text, o + 1)) != '`'
       else !IsDigit(c) && !StartsWord(c) && !IsSign(c) && !IsPair(c, Peek(text, o + 1))
  }

  lemma {:induction false} StuckHasNoToken(text: string, t: Lexeme)
    requires Stuck(text, t.offset)
    ensures !TokenAt(text, t)
  {
    hide StringStop, RawStop, IsKeyword, IsPair, IsSign;
    if TokenAt(text, t) {
      KindOf(text, t);
      if t.kind.Punct? {
        PunctIsSign(text, t);
      }
    }
  }

  lemma {:induction false} PunctIsSign(text: string, t: Lexeme)
    requires TokenAt(text, t) && t.kind.Punct?
    ensures IsSign(text[t.offset]) || IsPair(text[t.offset], Peek(text, t.offset + 1))
  {
    PunctOf(text, t);
  }

  /** A text with such a place behind its first tokens has no lexing. */
  lemma {:induction false} StuckHasNoLexing(text: string, ts: seq<Lexeme>, b: seq<Lexeme>)
    requires LexedTo(text, ts) && Reached(ts) <= |text| && Stuck(text, SkipEnd(text, Reached(ts)))
    ensures !Lexes(text, b)
  {
    hide SkipEnd, TokenAt, LineOf, LineStart, LexedTo, StringStop, RawStop, IsPair, IsSign;
    if Lexes(text, b) {
      var b' := b[..|b| - 1];
      if |b'| <= |ts| {
        PrefixesAgree(text, b', ts);
        if |b'| < |ts| {
          TokenBehind(text, ts, |b'|);
          TokenInside(text, ts[|b'|]);
        }
      } else {
        PrefixesAgree(text, ts, b');
        TokenBehind(text, b', |ts|);
        StuckHasNoToken(text, b'[|ts|]);
      }
    }
  }

  // Every byte is accounted for

  /** Whitespace and comments from i to j. */
  predicate Blank(text: string, i: nat, j: nat)
    requires j <= |text|
    decreases |text| - i
  {
    i == j
    || (i < j && IsSpace(text[i]) && Blank(text, i + 1, j))
    || (i < j && CommentAt(text, i) && CommentEnd(text, i) <= j && Blank(text, CommentEnd(text, i), j))
  }

  lemma {:induction false} SkippedIsBlank(text: string, i: nat)
    requires i <= |text|
    ensures Blank(text, i, SkipEnd(text, i))
    decreases |text| - i
  {
    hide CommentEnd;
    if IsSpace(Peek(text, i)) {
      SkippedIsBlank(text, i + 1);
    } else if CommentAt(text, i) {
      SkippedIsBlank(text, CommentEnd(text, i));
    }
  }

  /** Each byte of a lexed text is in one token or in the blank before one. */
  lemma {:induction false} ByteIsCovered(text: string, ts: seq<Lexeme>, b: nat) returns (k: nat)
    requires Lexes(text, ts) && b < |text|
    ensures k < |ts| && Reached(ts[..k]) <= ts[k].offset <= |text| && Blank(text, Reached(ts[..k]), ts[k].offset)
    ensures Reached(ts[..k]) <= b < ts[k].offset || ts[k].offset <= b < EndOf(ts[k])
  {
    hide SkipEnd, TokenAt, LexedTo, LineOf, LineStart, Blank;
    var init := ts[..|ts| - 1];
    if Reached(init) <= b {
      k := |ts| - 1;
      SkippedIsBlank(text, Reached(init));
    } else {
      k := TokenCovers(text, init, b);
      assert init[..k] == ts[..k];
    }
  }

  lemma {:induction false} TokenCovers(text: string, ts: seq<Lexeme>, b: nat) returns (k: nat)
    requires LexedTo(text, ts) && b < Reached(ts)
    ensures k < |ts| && Reached(ts[..k]) <= ts[k].offset <= |text| && Blank(text, Reached(ts[..k]), ts[k].offset)
    ensures Reached(ts[..k]) <= b < ts[k].offset || ts[k].offset <= b < EndOf(ts[k])
  {
    hide TokenAt, Placed, Blank;
    var init, t := ts[..|ts| - 1], ts[|ts| - 1];
    TokenInside(text, t);
    SkippedIsBlank(text, Reached(init));
    if Reached(init) <= b {
      k := |ts| - 1;
    } else {
      k := TokenCovers(text, init, b);
      assert init[..k] == ts[..k];
    }
  }

  // Termination

  /** What one round of the main loop consumes from where a token or an error starts. */
  function ConsumeEnd(text: string, o: nat): (e: nat)
    requires o < |text|
    ensures o <= e <= |text| && (text[o] != '\0' ==> o < e)
    ensures forall k :: o <= k < e ==> text[k] != '\0'
  {
    var c := text[o];
    if c == '\0' then o
    else if c == '"' then var s := StringStop(text, o + 1); if Peek(text, s) == '"' then s + 1 else s
    else if c == '`' then var s := RawStop(text, o + 1); if Peek(text, s) == '`' then s + 1 else s
    else if IsDigit(c) then DigitsEnd(text, o + 1)
    else if StartsWord(c) then WordEnd(text, o + 1)
    else if IsPair(c, Peek(text, o + 1)) then o + 2
    else o + 1
  }

  function DigitsEnd(text: string, i: nat): (e: nat)
    requires i <= |text|
    ensures i <= e <= |text| && (forall k :: i <= k < e ==> IsDigit(text[k])) && !IsDigit(Peek(text, e))
    decreases |text| - i
  {
    if i < |text| && IsDigit(text[i]) then DigitsEnd(text, i + 1) else i
  }

  function WordEnd(text: string, i: nat): (e: nat)
    requires i <= |text|
    ensures i <= e <= |text| && (forall k :: i <= k < e ==> InWord(text[k])) && !InWord(Peek(text, e))
    decreases |text| - i
  {
    if i < |text| && InWord(text[i]) then WordEnd(text, i + 1) else i
  }

  /** One round: whitespace, then a token or an error. */
  function Round(text: string, i: nat): (e: nat)
    requires i <= |text|
    ensures i <= e <= |text|
  {
    var o := SkipEnd(text, i);
    if o == |text| then o else ConsumeEnd(text, o)
  }

  function Rounds(text: string, n: nat): (e: nat)
    ensures e <= |text|
  {
    if n == 0 then 0 else Round(text, Rounds(text, n - 1))
  }

  predicate NulFree(text: string) { forall k :: 0 <= k < |text| ==> text[k] != '\0' }

  lemma {:induction false} RoundsStopAtNul(text: string, z: nat, n: nat)
    requires z < |text| && text[z] == '\0'
    ensures Rounds(text, n) <= z
  {
    hide SkipEnd, ConsumeEnd;
    if n > 0 {
      RoundsStopAtNul(text, z, n - 1);
    }
  }

  lemma {:induction false} RoundsAdvance(text: string, n: nat)
    requires NulFree(text)
    ensures Rounds(text, n) >= n || Rounds(text, n) == |text|
  {
    hide SkipEnd, ConsumeEnd;
    if n > 0 {
      RoundsAdvance(text, n - 1);
    }
  }

  /** The main loop ends if and only if the text holds no NUL byte. */
  lemma {:induction false} EndsExactlyWithoutNul(text: string)
    ensures (exists n :: Rounds(text, n) == |text|) <==> NulFree(text)
  {
    hide Rounds;
    if NulFree(text) {
      RoundsAdvance(text, |text|);
    }
    forall n, z | 0 <= z < |text| && text[z] == '\0'
      ensures Rounds(text, n) < |text|
    {
      RoundsStopAtNul(text, z, n);
    }
  }
}
