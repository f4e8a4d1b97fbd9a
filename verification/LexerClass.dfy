/** The lexer as it runs (src/lex/lexer.c): a cursor with its line and column, and the tokens
    pushed so far. */
module LexerClass {
  import opened SourceText
  import opened Lexing

  /** Tokens come at strictly increasing offsets, each of them right where it is. */
  predicate InOrder(text: string, ts: seq<Lexeme>, limit: nat) {
    && (forall k :: 0 <= k < |ts| ==> ts[k].offset < limit && TokenAt(text, ts[k]) && Placed(text, ts[k]))
    && (forall j, k :: 0 <= j < k < |ts| ==> ts[j].offset < ts[k].offset)
  }

  /** Some tokens in, nothing in the language goes on. */
  ghost predicate NoLexing(text: string) {
    forall ts :: !Lexes(text, ts)
  }

  class Lexer {
    const text: string
    var index: nat
    var line: nat
    var column: nat
    var tokens: seq<Lexeme>
    var diagnosed: bool

    constructor (text: string)
      ensures this.text == text && Valid() && index == 0 && tokens == [] && !diagnosed
    {
      this.text := text;
      index, line, column, tokens, diagnosed := 0, 1, 1, [], false;
    }

    ghost predicate Valid()
      reads this
    {
      index <= |text| && line == LineOf(text, index) && column == ColumnOf(text, index)
    }

    method Advance() returns (c: char)
      requires Valid()
      modifies this`index, this`line, this`column
      ensures Valid() && c == old(Peek(text, index)) && index == if c == '\0' then old(index) else old(index) + 1
    {
      c := Peek(text, index);
      if c == '\0' {
        return;
      }
      index := index + 1;
      if c == '\n' {
        line := line + 1;
        column := 1;
      } else {
        column := column + 1;
      }
    }

    method Match(expected: char) returns (b: bool)
      requires Valid() && expected != '\0'
      modifies this`index, this`line, this`column
      ensures Valid() && b == (old(Peek(text, index)) == expected) && index == if b then old(index) + 1 else old(index)
    {
      b := Peek(text, index) == expected;
      if b {
        var c := Advance();
      }
    }

    method SkipWhitespace()
      requires Valid()
      modifies this`index, this`line, this`column
      ensures Valid() && index == SkipEnd(text, old(index))
    {
      hide LineOf, LineStart;
      while true
        invariant Valid() && SkipEnd(text, index) == SkipEnd(text, old(index))
        decreases |text| - index
      {
        var c := Peek(text, index);
        if IsSpace(c) {
          c := Advance();
        } else if c == '/' && Peek(text, index + 1) == '/' {
          SkipComment();
        } else {
          break;
        }
      }
    }

    method SkipComment()
      requires Valid()
      modifies this`index, this`line, this`column
      ensures Valid() && index == CommentEnd(text, old(index))
    {
      hide LineOf, LineStart;
      while Peek(text, index) != '\0' && Peek(text, index) != '\n'
        invariant Valid() && CommentEnd(text, index) == CommentEnd(text, old(index))
        decreases |text| - index
      {
        var c := Advance();
      }
    }

    /** Pushes a token that starts at the given place. */
    method Emit(kind: Kind, offset: nat, line: nat, column: nat, start: nat, length: nat)
      requires offset < |text| && Placed(text, Lexeme(kind, offset, start, length, line, column))
      requires TokenAt(text, Lexeme(kind, offset, start, length, line, column))
      requires InOrder(text, tokens, offset)
      modifies this`tokens
      ensures tokens == old(tokens) + [Lexeme(kind, offset, start, length, line, column)]
      ensures InOrder(text, tokens, offset + 1)
    {
      hide TokenAt, Placed;
      tokens := tokens + [Lexeme(kind, offset, start, length, line, column)];
    }

    method ScanNumber(offset: nat, line: nat, column: nat)
      requires Valid() && index == offset + 1 && IsDigit(text[offset]) && InOrder(text, tokens, offset)
      requires line == LineOf(text, offset) && column == ColumnOf(text, offset)
      modifies this
      ensures Valid() && index == DigitsEnd(text, offset + 1) && diagnosed == old(diagnosed)
      ensures InOrder(text, tokens, offset + 1)
      ensures tokens == old(tokens) + [Lexeme(Number, offset, offset, index - offset, line, column)]
    {
      hide LineOf, LineStart, InOrder;
      var end := NumberTail(text, index);
      SameRow(text, index, end);
      this.column := this.column + (end - index);
      index := end;
      Emit(Number, offset, line, column, offset, index - offset);
    }

    method ScanIdentifier(offset: nat, line: nat, column: nat)
      requires Valid() && index == offset + 1 && StartsWord(text[offset]) && InOrder(text, tokens, offset)
      requires line == LineOf(text, offset) && column == ColumnOf(text, offset)
      modifies this
      ensures Valid() && index == WordEnd(text, offset + 1) && diagnosed == old(diagnosed)
      ensures InOrder(text, tokens, offset + 1)
      ensures tokens ==
        old(tokens) + [Lexeme(KeywordKind(text[offset..index]), offset, offset, index - offset, line, column)]
    {
      hide LineOf, LineStart, InOrder, IsKeyword;
      var end := IdentifierTail(text, index);
      SameRow(text, index, end);
      this.column := this.column + (end - index);
      index := end;
      Emit(KeywordKind(text[offset..index]), offset, line, column, offset, index - offset);
    }

    method ScanString(offset: nat, line: nat, column: nat)
      requires Valid() && index == offset + 1 && text[offset] == '"' && InOrder(text, tokens, offset)
      requires line == LineOf(text, offset) && column == ColumnOf(text, offset)
      modifies this
      ensures Valid() && index == ConsumeEnd(text, offset) && InOrder(text, tokens, offset + 1)
      ensures Stuck(text, offset) ==> diagnosed && tokens == old(tokens)
      ensures !Stuck(text, offset) ==>
        && diagnosed == old(diagnosed)
        && tokens == old(tokens) + [Lexeme(Str, offset, offset + 1, index - offset - 2, line, column)]
    {
      hide LineOf, LineStart, InOrder;
      while Peek(text, index) != '\0' && Peek(text, index) != '"'
        invariant Valid() && offset < index && StringStop(text, index) == StringStop(text, offset + 1)
        invariant tokens == old(tokens) && diagnosed == old(diagnosed)
        decreases |text| - index
      {
        if Peek(text, index) == '\n' {
          Widen(text, tokens, offset);
          diagnosed := true;
          return;
        }
        if Peek(text, index) == '\\' && Peek(text, index + 1) != '\0' {
          var c := Advance();
        }
        var c := Advance();
      }
      if Peek(text, index) != '"' {
        Widen(text, tokens, offset);
        diagnosed := true;
        return;
      }
      var end := index;
      var c := Advance();
      Emit(Str, offset, line, column, offset + 1, end - (offset + 1));
    }

    method ScanRawString(offset: nat, line: nat, column: nat)
      requires Valid() && index == offset + 1 && text[offset] == '`' && InOrder(text, tokens, offset)
      requires line == LineOf(text, offset) && column == ColumnOf(text, offset)
      modifies this
      ensures Valid() && index == ConsumeEnd(text, offset) && InOrder(text, tokens, offset + 1)
      ensures Stuck(text, offset) ==> diagnosed && tokens == old(tokens)
      ensures !Stuck(text, offset) ==>
        && diagnosed == old(diagnosed)
        && tokens == old(tokens) + [Lexeme(Str, offset, offset + 1, index - offset - 2, line, column)]
    {
      hide LineOf, LineStart, InOrder;
      while Peek(text, index) != '\0' && Peek(text, index) != '`'
        invariant Valid() && offset < index && RawStop(text, index) == RawStop(text, offset + 1)
        invariant tokens == old(tokens) && diagnosed == old(diagnosed)
        decreases |text| - index
      {
        var c := Advance();
      }
      if Peek(text, index) != '`' {
        Widen(text, tokens, offset);
        diagnosed := true;
        return;
      }
      var end := index;
      var c := Advance();
      Emit(Str, offset, line, column, offset + 1, end - (offset + 1));
    }

    /** The signs of one or two bytes, and the bytes that start nothing. */
    method ScanSign(value: char, offset: nat, line: nat, column: nat)
      requires Valid() && index == offset + 1 && text[offset] == value && value != '\0' && InOrder(text, tokens, offset)
      requires !IsDigit(value) && !StartsWord(value) && value != '"' && value != '`'
      requires line == LineOf(text, offset) && column == ColumnOf(text, offset)
      modifies this
      ensures Valid() && index == ConsumeEnd(text, offset) && InOrder(text, tokens, offset + 1)
      ensures Stuck(text, offset) ==> diagnosed && tokens == old(tokens)
      ensures !Stuck(text, offset) ==>
        && diagnosed == old(diagnosed)
        && tokens == old(tokens) + [Lexeme(Punct(text[offset..index]), offset, offset, index - offset, line, column)]
    {
      hide LineOf, LineStart, InOrder, StringStop, RawStop, DigitsEnd, WordEnd, IsKeyword;
      var paired := false;
      if value == '.' {
        paired := Match('.');
      } else if value == '!' || value == '=' || value == '<' || value == '>' {
        paired := Match('=');
      } else if value == '&' || value == '|' {
        paired := Match(value);
      }
      if paired || IsSign(value) {
        ghost var spelled := text[offset..index];
        assert |spelled| == index - offset && spelled[0] == value && (paired ==> spelled[1] == text[offset + 1]);
        Emit(Punct(text[offset..index]), offset, line, column, offset, index - offset);
      } else {
        Widen(text, tokens, offset);
        diagnosed := true;
      }
    }

    /** One round of the main loop, behind the whitespace. */
    method ScanToken()
      requires Valid() && index < |text| && InOrder(text, tokens, index)
      modifies this
      ensures Valid() && index == ConsumeEnd(text, old(index)) && InOrder(text, tokens, old(index) + 1)
      ensures Stuck(text, old(index)) ==> diagnosed && tokens == old(tokens)
      ensures !Stuck(text, old(index)) ==>
        && diagnosed == old(diagnosed) && |tokens| == |old(tokens)| + 1 && tokens[..|tokens| - 1] == old(tokens)
        && tokens[|tokens| - 1].offset == old(index) && EndOf(tokens[|tokens| - 1]) == index
    {
      hide LineOf, LineStart, InOrder, StringStop, RawStop, IsKeyword, IsPair, IsSign, DigitsEnd, WordEnd;
      var offset, line, column := index, this.line, this.column;
      var value := Advance();
      if value == '\0' {
        Widen(text, tokens, offset);
        NulIsStuck(text, offset);
        diagnosed := true;
      } else if value == '"' {
        ScanString(offset, line, column);
      } else if value == '`' {
        ScanRawString(offset, line, column);
      } else if IsDigit(value) {
        ScanNumber(offset, line, column);
      } else if StartsWord(value) {
        ScanIdentifier(offset, line, column);
      } else {
        ScanSign(value, offset, line, column);
      }
    }

    /** Between rounds: the tokens so far lex the text up to here, or no lexing exists. */
    ghost predicate Underway()
      reads this
    {
      && Valid() && InOrder(text, tokens, index)
      && if diagnosed then NoLexing(text)
         else
           && LexedTo(text, tokens) && Reached(tokens) <= |text|
           && SkipEnd(text, Reached(tokens)) == SkipEnd(text, index)
    }

    /** One round of the main loop. A NUL byte is diagnosed and not passed. */
    method OneRound()
      requires Underway() && index < |text|
      modifies this
      ensures Underway() && index == Round(text, old(index))
    {
      hide LineOf, LineStart, InOrder, SkipEnd, ConsumeEnd, Stuck, TokenAt, NoLexing;
      ghost var start, before := index, tokens;
      SkipWhitespace();
      Raise(text, tokens, start, index);
      SkipTwice(text, start);
      if index >= |text| {
        return;
      }
      ghost var offset := index;
      if !diagnosed && Stuck(text, offset) {
        NoneWhenStuck(text, tokens);
      }
      ScanToken();
      if !diagnosed {
        OneMore(text, tokens, offset + 1);
      }
      if text[offset] == '\0' {
        NulIsStuck(text, offset);
      } else {
        Raise(text, tokens, offset + 1, index);
      }
    }

    /** Any number of rounds on any text. */
    method RunRounds(limit: nat)
      requires Valid() && index == 0 && tokens == [] && !diagnosed
      modifies this
      ensures Underway() && index == Rounds(text, limit)
    {
      hide LineOf, LineStart, InOrder, SkipEnd, Round;
      InOrderEmpty(text);
      var n := 0;
      while n < limit && index < |text|
        invariant n <= limit && Underway() && index == Rounds(text, n)
      {
        OneRound();
        n := n + 1;
      }
      if n < limit {
        RoundsStay(text, n, limit);
      }
    }

    /** The whole run, which ends on texts without NUL bytes. Without a diagnostic the tokens
        are the lexing of the text; with one there is no lexing. */
    method Run()
      requires Valid() && index == 0 && tokens == [] && !diagnosed && NulFree(text)
      modifies this
      ensures Valid() && index == |text| && tokens != []
      ensures if diagnosed then NoLexing(text) else Lexes(text, tokens)
      ensures InOrder(text, tokens[..|tokens| - 1], |text|) && AtEnd(text, tokens[|tokens| - 1])
    {
      hide LineOf, LineStart, InOrder, SkipEnd, ConsumeEnd, Lexes;
      InOrderEmpty(text);
      while index < |text|
        invariant Underway()
        decreases |text| - index
      {
        OneRound();
      }
      tokens := tokens + [Lexeme(Eof, |text|, |text|, 0, line, column)];
      if !diagnosed {
        EndReached(text, tokens);
      }
    }
  }

  lemma SkipTwice(text: string, i: nat)
    requires i <= |text|
    ensures SkipEnd(text, SkipEnd(text, i)) == SkipEnd(text, i)
  {
  }

  lemma {:induction false} RoundsStay(text: string, n: nat, m: nat)
    requires n <= m && Rounds(text, n) == |text|
    ensures Rounds(text, m) == |text|
  {
    hide SkipEnd, ConsumeEnd;
    if n < m {
      RoundsStay(text, n, m - 1);
    }
  }

  function KeywordKind(s: string): Kind { if IsKeyword(s) then Keyword(s) else Ident }

  method NumberTail(text: string, index: nat) returns (end: nat)
    requires index <= |text|
    ensures end == DigitsEnd(text, index)
  {
    end := index;
    while end < |text| && IsDigit(text[end])
      invariant index <= end <= |text| && DigitsEnd(text, end) == DigitsEnd(text, index)
    {
      end := end + 1;
    }
  }

  method IdentifierTail(text: string, index: nat) returns (end: nat)
    requires index <= |text|
    ensures end == WordEnd(text, index)
  {
    end := index;
    while end < |text| && InWord(text[end])
      invariant index <= end <= |text| && WordEnd(text, end) == WordEnd(text, index)
    {
      end := end + 1;
    }
  }

  lemma {:induction false} Widen(text: string, ts: seq<Lexeme>, offset: nat)
    requires InOrder(text, ts, offset)
    ensures InOrder(text, ts, offset + 1)
  {
    hide TokenAt, Placed;
  }

  lemma InOrderEmpty(text: string)
    ensures InOrder(text, [], 0)
  {
  }

  lemma {:induction false} Raise(text: string, ts: seq<Lexeme>, a: nat, b: nat)
    ensures InOrder(text, ts, a) && a <= b ==> InOrder(text, ts, b)
  {
    hide TokenAt, Placed;
  }

  /** A token behind the tokens lexed so far. */
  lemma {:induction false} OneMore(text: string, ts: seq<Lexeme>, limit: nat)
    requires ts != [] && LexedTo(text, ts[..|ts| - 1]) && InOrder(text, ts, limit) && Reached(ts[..|ts| - 1]) <= |text|
    requires ts[|ts| - 1].offset == SkipEnd(text, Reached(ts[..|ts| - 1]))
    ensures LexedTo(text, ts)
  {
    hide TokenAt, Placed, SkipEnd;
  }

  lemma EndReached(text: string, ts: seq<Lexeme>)
    requires ts != [] && LexedTo(text, ts[..|ts| - 1]) && Reached(ts[..|ts| - 1]) <= |text|
    requires SkipEnd(text, Reached(ts[..|ts| - 1])) == |text| && AtEnd(text, ts[|ts| - 1])
    ensures Lexes(text, ts)
  {
  }

  lemma NulIsStuck(text: string, o: nat)
    requires o < |text| && text[o] == '\0'
    ensures Stuck(text, o) && ConsumeEnd(text, o) == o
  {
  }

  lemma {:induction false} NoneWhenStuck(text: string, ts: seq<Lexeme>)
    requires LexedTo(text, ts) && Reached(ts) <= |text| && Stuck(text, SkipEnd(text, Reached(ts)))
    ensures NoLexing(text)
  {
    forall b
      ensures !Lexes(text, b)
    {
      StuckHasNoLexing(text, ts, b);
    }
  }
}
