/** The lexer object: a cursor advanced byte by byte, proved against `Lexing`. */
module Lexer {
  import opened Tokens
  import opened Lexing

  class Lexer {
    const input: string
    var pos: nat
    var readPos: nat
    var ch: char
    var line: int
    var col: int

    ghost predicate Valid()
      reads this
    {
      readPos == pos + 1 && ch == Ch(input, pos)
    }

    ghost function Cursor(): State
      reads this
    {
      State(pos, line, col)
    }

    constructor (input: string)
      ensures Valid() && this.input == input && Cursor() == Start()
    {
      this.input := input;
      line, col := 1, 1;
      pos, readPos := 0, 1;
      ch := if 0 < |input| then input[0] else NUL;
    }

    method ReadChar()
      requires Valid()
      modifies this
      ensures Valid() && Cursor() == Step(old(Cursor()), 1)
    {
      if readPos >= |input| {
        ch := NUL;
      } else {
        ch := input[readPos];
      }
      pos := readPos;
      readPos := readPos + 1;
      col := col + 1;
    }

    function PeekChar(): (c: char)
      requires Valid()
      reads this
      ensures c == Ch(input, pos + 1)
    {
      if readPos >= |input| then NUL else input[readPos]
    }

    method SkipWhitespace()
      requires Valid()
      modifies this
      ensures Valid() && Cursor() == Step(old(Cursor()), BlankEnd(input, old(pos)) - old(pos))
    {
      while ch == ' ' || ch == '\t' || ch == '\r'
        invariant Valid() && pos >= old(pos) && Cursor() == Step(old(Cursor()), pos - old(pos))
        invariant BlankEnd(input, pos) == BlankEnd(input, old(pos))
        decreases |input| - pos
      {
        ReadChar();
      }
    }

    method SkipSingleLineComment()
      requires Valid()
      modifies this
      ensures Valid() && Cursor() == Step(old(Cursor()), LineCommentEnd(input, old(pos)) - old(pos))
    {
      while ch != '\n' && ch != NUL
        invariant Valid() && pos >= old(pos) && Cursor() == Step(old(Cursor()), pos - old(pos))
        invariant LineCommentEnd(input, pos) == LineCommentEnd(input, old(pos))
        decreases |input| - pos
      {
        ReadChar();
      }
    }

    method SkipMultiLineComment()
      requires Valid()
      modifies this
      ensures Valid() && Cursor() == BlockComment(input, Step(old(Cursor()), 2))
    {
      ReadChar();
      ReadChar();
      while true
        invariant Valid() && BlockComment(input, Cursor()) == BlockComment(input, Step(old(Cursor()), 2))
        decreases |input| - pos
      {
        if ch == NUL {
          return;
        }
        if ch == '\n' {
          line := line + 1;
          col := 0;
        }
        if ch == '*' && PeekChar() == '/' {
          ReadChar();
          ReadChar();
          return;
        }
        ReadChar();
      }
    }

    method ReadIdentifier() returns (word: string)
      requires Valid() && pos <= |input|
      modifies this
      ensures Valid() && WordEnd(input, old(pos)) <= |input|
      ensures Cursor() == Step(old(Cursor()), WordEnd(input, old(pos)) - old(pos))
      ensures word == input[old(pos)..WordEnd(input, old(pos))]
    {
      var start := pos;
      while IsLetter(ch) || IsDigit(ch)
        invariant Valid() && start <= pos <= |input| && Cursor() == Step(old(Cursor()), pos - start)
        invariant WordEnd(input, pos) == WordEnd(input, start)
        decreases |input| - pos
      {
        ReadChar();
      }
      word := input[start..pos];
    }

    method ReadDigits()
      requires Valid() && pos <= |input|
      modifies this
      ensures Valid() && pos == DigitsEnd(input, old(pos)) && Cursor() == Step(old(Cursor()), pos - old(pos))
    {
      while IsDigit(ch)
        invariant Valid() && old(pos) <= pos <= |input| && Cursor() == Step(old(Cursor()), pos - old(pos))
        invariant DigitsEnd(input, pos) == DigitsEnd(input, old(pos))
        decreases |input| - pos
      {
        ReadChar();
      }
    }

    function PeekDurationSuffix(): (n: nat)
      requires Valid()
      reads this
      ensures n == DurationSuffix(input, pos)
    {
      if pos >= |input| then 0
      else
        var next := if pos + 1 < |input| then input[pos + 1] else NUL;
        var boundary := if pos + 2 < |input| then input[pos + 2] else NUL;
        if (ch == 'n' || ch == 'u' || ch == 'm') && next == 's' && !IsLetter(boundary) && !IsDigit(boundary) then 2
        else if (ch == 's' || ch == 'm' || ch == 'h') && !IsLetter(next) && !IsDigit(next) then 1
        else 0
    }

    method ReadNumber() returns (lit: string, typ: TokenType)
      requires Valid() && pos <= |input|
      modifies this
      ensures Valid() && NumberEnd(input, old(pos)) <= |input|
      ensures Cursor() == Step(old(Cursor()), NumberEnd(input, old(pos)) - old(pos))
      ensures lit == input[old(pos)..NumberEnd(input, old(pos))] && typ == NumberType(input, old(pos))
    {
      hide DigitsEnd, DurationSuffix;
      var start := pos;
      ReadDigits();
      var isFloat := false;
      if ch == '.' && IsDigit(PeekChar()) {
        ReadChar();
        ReadDigits();
        isFloat := true;
      }
      var suffixLen := PeekDurationSuffix();
      if suffixLen > 0 {
        Take(suffixLen);
        return input[start..pos], DURATION_LIT;
      }
      if isFloat {
        return input[start..pos], FLOAT_LIT;
      }
      return input[start..pos], INT_LIT;
    }

    method ReadString() returns (buf: string)
      requires Valid()
      modifies this
      ensures Valid() && buf == StringBody(input, old(pos) + 1).0
      ensures Cursor() == Step(old(Cursor()), StringBody(input, old(pos) + 1).1 + 1 - old(pos))
    {
      hide StringBody, Unescape;
      ReadChar();
      buf := [];
      ghost var whole := StringBody(input, old(pos) + 1);
      assert buf + whole.0 == whole.0;
      while ch != '"' && ch != NUL
        invariant Valid() && pos > old(pos) && Cursor() == Step(old(Cursor()), pos - old(pos))
        invariant whole == (buf + StringBody(input, pos).0, StringBody(input, pos).1)
        decreases |input| - pos
      {
        var piece := ReadPiece();
        assert buf + (piece + StringBody(input, pos).0) == (buf + piece) + StringBody(input, pos).0;
        buf := buf + piece;
      }
      StringBodyEnd(input, pos);
      ReadChar();
    }

    /** A character of a string, or an escape. */
    method ReadPiece() returns (piece: string)
      requires Valid() && ch != '"' && ch != NUL
      modifies this
      ensures Valid() && pos > old(pos) && Cursor() == Step(old(Cursor()), pos - old(pos))
      ensures StringBody(input, old(pos)) == (piece + StringBody(input, pos).0, StringBody(input, pos).1)
    {
      hide StringBody, Unescape;
      StringBodyStep(input, pos);
      piece := [ch];
      if ch == '\\' {
        ReadChar();
        piece := Unescape(ch);
      }
      ReadChar();
    }

    /** Step over `n` bytes. */
    method Take(n: nat)
      requires Valid()
      modifies this
      ensures Valid() && Cursor() == Step(old(Cursor()), n)
    {
      for k := 0 to n
        invariant Valid() && Cursor() == Step(old(Cursor()), k)
      {
        ReadChar();
      }
    }

    method NextToken() returns (tok: Token)
      requires Valid()
      modifies this
      ensures Valid() && (tok, Cursor()) == Next(input, old(Cursor()))
      decreases |input| - pos
    {
      hide Next, Scan, BlockComment, LineCommentEnd, BlankEnd;
      NextUnfolds(input, Cursor());
      SkipWhitespace();
      var next := PeekChar();
      if ch == '/' && next == '/' {
        SkipSingleLineComment();
        tok := NextToken();
      } else if ch == '/' && next == '*' {
        SkipMultiLineComment();
        tok := NextToken();
      } else {
        tok := ScanHere();
      }
    }

    /** The token at the cursor, which is at no blank and no comment. */
    method ScanHere() returns (tok: Token)
      requires Valid()
      modifies this
      ensures Valid() && tok == Token(Scan(input, old(Cursor())).0, old(line), old(col))
      ensures Cursor() == Scan(input, old(Cursor())).1
    {
      hide Operator, LookupIdent, NumberEnd, NumberType, WordEnd, StringBody;
      var startLine, startCol := line, col;
      if ch == NUL {
        tok := Token(Sym(EOF, ""), startLine, startCol);
        ReadChar();
      } else if ch == '\n' {
        tok := Token(Sym(NEWLINE, "\n"), startLine, startCol);
        line := line + 1;
        col := 0;
        ReadChar();
      } else if ch == '"' {
        var lit := ReadString();
        tok := Token(Sym(STRING_LIT, lit), startLine, startCol);
      } else if IsLetter(ch) {
        var word := ReadIdentifier();
        tok := Token(Sym(LookupIdent(word), word), startLine, startCol);
      } else if IsDigit(ch) {
        var lit, typ := ReadNumber();
        tok := Token(Sym(typ, lit), startLine, startCol);
      } else {
        var op := Operator(input, pos);
        tok := Token(Sym(op.0, input[pos..pos + op.1]), startLine, startCol);
        Take(op.1);
      }
    }
  }

  /** `CollectAll`. */
  method CollectAll(l: Lexer) returns (tokens: seq<Token>)
    requires l.Valid()
    modifies l
    ensures l.Valid() && tokens == Collect(l.input, old(l.Cursor()))
  {
    hide Next;
    tokens := [];
    ghost var start := l.Cursor();
    assert tokens + Collect(l.input, start) == Collect(l.input, start);
    while true
      invariant l.Valid() && Collect(l.input, start) == tokens + Collect(l.input, l.Cursor())
      decreases |l.input| - l.pos
    {
      ghost var before := tokens;
      ghost var at := l.Cursor();
      var tok := l.NextToken();
      tokens := tokens + [tok];
      if tok.sym.typ == EOF {
        return;
      }
      assert before + ([tok] + Collect(l.input, l.Cursor())) == tokens + Collect(l.input, l.Cursor());
    }
  }
}
