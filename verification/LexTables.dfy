/** The tables of the lexer, said the other way round: how each keyword is spelled,
    which operator is the longest that stands at a place, and what separates tokens. */
module LexTables {
  import opened Tokens
  import opened Lexing

  // ---------- characters ----------

  lemma CharactersAre(c: char)
    ensures IsLetter(c) <==> 'a' <= c <= 'z' || 'A' <= c <= 'Z' || c == '_'
    ensures IsDigit(c) <==> '0' <= c <= '9'
    ensures IsBlank(c) <==> c == ' ' || c == '\t' || c == '\r'
  {
  }

  // ---------- keywords ----------

  /** How the keyword of a kind is spelled; other kinds have no keyword. */
  function Spelling(t: TokenType): string {
    if t == OBJECT then "object"
    else if t == BLUEPRINT then "blueprint"
    else if t == ACTOR then "actor"
    else if t == AGENT then "agent"
    else if t == TOOL then "tool"
    else if t == MCP then "mcp"
    else if t == SERVICE then "service"
    else if t == PIPELINE then "pipeline"
    else if t == PROTOCOL then "protocol"
    else if t == IMPL then "impl"
    else if t == EFFECT then "effect"
    else if t == HANDLE then "handle"
    else if t == FLOW then "flow"
    else if t == FN then "fn"
    else if t == LET then "let"
    else if t == MUT then "mut"
    else if t == TYPE then "type"
    else if t == ENUM then "enum"
    else if t == UNION then "union"
    else if t == SPAWN then "spawn"
    else if t == RECEIVE then "receive"
    else if t == SEND then "send"
    else if t == EMIT then "emit"
    else if t == YIELD then "yield"
    else if t == MATCH then "match"
    else if t == IF then "if"
    else if t == ELSE then "else"
    else if t == FOR then "for"
    else if t == IN then "in"
    else if t == WHILE then "while"
    else if t == DO then "do"
    else if t == RETURN then "return"
    else if t == BREAK then "break"
    else if t == CONTINUE then "continue"
    else if t == IMPORT then "import"
    else if t == EXPORT then "export"
    else if t == USE then "use"
    else if t == WHERE then "where"
    else if t == WITH then "with"
    else if t == TRUE then "true"
    else if t == FALSE then "false"
    else if t == NIL then "nil"
    else if t == SELF then "self"
    else if t == SUPER then "super"
    else if t == ISO then "iso"
    else if t == TRN then "trn"
    else if t == REF then "ref"
    else if t == VAL then "val"
    else if t == BOX then "box"
    else if t == TAG then "tag"
    else if t == STREAM then "stream"
    else if t == PARTITION then "partition"
    else if t == MERGE then "merge"
    else if t == WINDOW then "window"
    else if t == SINK then "sink"
    else if t == SOURCE then "source"
    else if t == TRANSFORM then "transform"
    else if t == DELEGATE then "delegate"
    else if t == ASYNC then "async"
    else if t == AWAIT then "await"
    else ""
  }

  /** A word is a keyword exactly when it is spelled like one, and then of that kind. */
  lemma KeywordIs(word: string)
    requires word != ""
    ensures LookupIdent(word) != IDENT ==> Spelling(LookupIdent(word)) == word
    ensures LookupIdent(word) == IDENT ==> forall t :: Spelling(t) != word
  {
    hide LookupIdent, Spelling;
    KeywordSpelled(word);
    forall t | LookupIdent(word) == IDENT ensures Spelling(t) != word {
      OtherWord(word, t);
    }
  }

  lemma KeywordSpelled(word: string)
    ensures LookupIdent(word) != IDENT ==> Spelling(LookupIdent(word)) == word
  {
  }

  lemma OtherWord(word: string, t: TokenType)
    requires word != "" && LookupIdent(word) == IDENT
    ensures Spelling(t) != word
  {
  }

  // ---------- operators ----------

  /** How the operators of several bytes are spelled. */
  function LongText(t: TokenType): string {
    if t == SPREAD then "..."
    else if t == ARROW then "->"
    else if t == MINUS_ASSIGN then "-="
    else if t == FAT_ARROW then "=>"
    else if t == EQ then "=="
    else if t == PIPE_FORWARD then "|>"
    else if t == OR then "||"
    else if t == SEND_OP then "<-"
    else if t == LTE then "<="
    else if t == GTE then ">="
    else if t == DOUBLE_QUESTION then "??"
    else if t == NEQ then "!="
    else if t == AND then "&&"
    else if t == PLUS_ASSIGN then "+="
    else ""
  }

  /** How the operators and delimiters of one byte are spelled. */
  function ShortText(t: TokenType): string {
    if t == MINUS then "-"
    else if t == ASSIGN then "="
    else if t == LT then "<"
    else if t == GT then ">"
    else if t == QUESTION then "?"
    else if t == DOT then "."
    else if t == BANG then "!"
    else if t == PLUS then "+"
    else if t == STAR then "*"
    else if t == SLASH then "/"
    else if t == PERCENT then "%"
    else if t == LPAREN then "("
    else if t == RPAREN then ")"
    else if t == LBRACE then "{"
    else if t == RBRACE then "}"
    else if t == LBRACKET then "["
    else if t == RBRACKET then "]"
    else if t == COMMA then ","
    else if t == COLON then ":"
    else if t == SEMICOLON then ";"
    else if t == AT then "@"
    else ""
  }

  function OperatorText(t: TokenType): string {
    LongText(t) + ShortText(t)
  }

  predicate StandsAt(s: string, i: nat, w: string) {
    |w| > 0 && forall k :: 0 <= k < |w| ==> Ch(s, i + k) == w[k]
  }

  /** The operator read is one that stands there, and none that stands there is longer;
      a byte where none stands is illegal by itself. */
  lemma LongestOperator(s: string, i: nat, t: TokenType)
    ensures var r := Operator(s, i);
            && (r.0 != ILLEGAL ==> StandsAt(s, i, OperatorText(r.0)) && |OperatorText(r.0)| == r.1)
            && (r.0 == ILLEGAL ==> r.1 == 1)
            && (StandsAt(s, i, OperatorText(t)) ==> r.0 != ILLEGAL && |OperatorText(t)| <= r.1)
  {
    OperatorStands(s, i);
    if LongText(t) != "" { LongIsRead(s, i, t); } else if ShortText(t) != "" { ShortIsRead(s, i, t); }
    hide Operator, LongText, ShortText;
  }

  lemma OperatorStands(s: string, i: nat)
    ensures var r := Operator(s, i);
            && (r.0 != ILLEGAL ==> StandsAt(s, i, OperatorText(r.0)) && |OperatorText(r.0)| == r.1)
            && (r.0 == ILLEGAL ==> r.1 == 1)
  {
    var r := Operator(s, i);
    assert Ch(s, i + 0) == Ch(s, i);
    if r.1 > 1 {
      LongStands(s, i);
    } else if r.0 != ILLEGAL {
      ShortStands(s, i);
    }
  }

  lemma ShortStands(s: string, i: nat)
    requires Operator(s, i).1 == 1 && Operator(s, i).0 != ILLEGAL
    ensures OperatorText(Operator(s, i).0) == [Ch(s, i)]
  {
    var t := Operator(s, i).0;
    assert ShortText(t) == [Ch(s, i)];
    assert LongText(t) == "";
  }

  lemma LongStands(s: string, i: nat)
    requires Operator(s, i).1 > 1
    ensures var r := Operator(s, i); OperatorText(r.0) == if r.1 == 2 then [Ch(s, i), Ch(s, i + 1)] else "..."
    ensures Operator(s, i).1 == 3 ==> StandsAt(s, i, "...")
    ensures Operator(s, i).1 <= 3
  {
    var r := Operator(s, i);
    assert ShortText(r.0) == "";
    assert LongText(r.0) == if r.1 == 2 then [Ch(s, i), Ch(s, i + 1)] else "...";
  }

  lemma LongIsRead(s: string, i: nat, t: TokenType)
    requires LongText(t) != ""
    ensures StandsAt(s, i, OperatorText(t)) ==> Operator(s, i) == (t, |OperatorText(t)|)
  {
    var w := LongText(t);
    assert ShortText(t) == "" && OperatorText(t) == w;
    if StandsAt(s, i, w) {
      assert Ch(s, i + 0) == w[0] && Ch(s, i + 1) == w[1];
      if |w| > 2 { assert Ch(s, i + 2) == w[2]; }
    }
  }

  lemma ShortIsRead(s: string, i: nat, t: TokenType)
    requires ShortText(t) != ""
    ensures StandsAt(s, i, OperatorText(t)) ==> Operator(s, i).0 != ILLEGAL && |OperatorText(t)| == 1
  {
    var w := ShortText(t);
    assert LongText(t) == "" && OperatorText(t) == w && |w| == 1;
    if StandsAt(s, i, w) { assert Ch(s, i + 0) == w[0]; }
  }

  // ---------- escapes and units ----------

  /** In a string literal five escapes stand for one byte; before any other byte the
      backslash is kept. */
  lemma EscapesAre(c: char)
    ensures Unescape('"') == ['"'] && Unescape('\\') == ['\\']
    ensures Unescape('n') == ['\n'] && Unescape('t') == ['\t'] && Unescape('r') == ['\r']
    ensures c !in {'"', '\\', 'n', 't', 'r'} ==> Unescape(c) == ['\\', c]
  {
  }

  predicate EndsWord(s: string, i: nat) {
    !IsLetter(Ch(s, i)) && !IsDigit(Ch(s, i))
  }

  /** A number takes a unit exactly when one stands behind it that ends there as a word
      does. */
  lemma UnitIs(s: string, i: nat)
    ensures DurationSuffix(s, i) == 2 <==>
            (StandsAt(s, i, "ns") || StandsAt(s, i, "us") || StandsAt(s, i, "ms")) && EndsWord(s, i + 2)
    ensures DurationSuffix(s, i) == 1 <==>
            (StandsAt(s, i, "s") || StandsAt(s, i, "m") || StandsAt(s, i, "h")) && EndsWord(s, i + 1)
  {
    assert Ch(s, i + 0) == Ch(s, i);
    UnitStands(s, i);
    hide StandsAt;
  }

  lemma UnitStands(s: string, i: nat)
    ensures StandsAt(s, i, "ns") <==> Ch(s, i) == 'n' && Ch(s, i + 1) == 's'
    ensures StandsAt(s, i, "us") <==> Ch(s, i) == 'u' && Ch(s, i + 1) == 's'
    ensures StandsAt(s, i, "ms") <==> Ch(s, i) == 'm' && Ch(s, i + 1) == 's'
    ensures StandsAt(s, i, "s") <==> Ch(s, i) == 's'
    ensures StandsAt(s, i, "m") <==> Ch(s, i) == 'm'
    ensures StandsAt(s, i, "h") <==> Ch(s, i) == 'h'
  {
    assert "ns" == ['n', 's'] && "us" == ['u', 's'] && "ms" == ['m', 's'];
    assert "s" == ['s'] && "m" == ['m'] && "h" == ['h'];
    StandsTwo(s, i, 'n', 's');
    StandsTwo(s, i, 'u', 's');
    StandsTwo(s, i, 'm', 's');
    StandsOne(s, i, 's');
    StandsOne(s, i, 'm');
    StandsOne(s, i, 'h');
    hide Ch, StandsAt;
  }

  lemma StandsTwo(s: string, i: nat, a: char, b: char)
    ensures StandsAt(s, i, [a, b]) <==> Ch(s, i) == a && Ch(s, i + 1) == b
  {
    hide Ch;
    if StandsAt(s, i, [a, b]) { assert Ch(s, i + 0) == [a, b][0] && Ch(s, i + 1) == [a, b][1]; }
  }

  lemma StandsOne(s: string, i: nat, a: char)
    ensures StandsAt(s, i, [a]) <==> Ch(s, i) == a
  {
    hide Ch;
    if StandsAt(s, i, [a]) { assert Ch(s, i + 0) == [a][0]; }
  }

  // ---------- comments ----------

  /** A block comment ends behind the first `*` and `/` in a row, or where the text does;
      what is between does not matter. */
  lemma {:induction false} BlockCommentIs(s: string, st: State, j: nat)
    requires st.pos <= j && forall k :: st.pos <= k < j ==> Ch(s, k) != NUL && !(Ch(s, k) == '*' && Ch(s, k + 1) == '/')
    ensures Ch(s, j) == '*' && Ch(s, j + 1) == '/' ==> BlockComment(s, st).pos == j + 2
    ensures Ch(s, j) == NUL ==> BlockComment(s, st).pos == j
    decreases j - st.pos
  {
    hide Ch;
    if st.pos < j {
      BlockCommentIs(s, Step(if Ch(s, st.pos) == '\n' then State(st.pos, st.line + 1, 0) else st, 1), j);
    }
  }

  /** A line comment ends before the newline, or where the text does. */
  lemma {:induction false} LineCommentIs(s: string, i: nat, j: nat)
    requires i <= j && (forall k :: i <= k < j ==> Ch(s, k) != '\n' && Ch(s, k) != NUL)
    requires Ch(s, j) == '\n' || Ch(s, j) == NUL
    ensures LineCommentEnd(s, i) == j
    decreases j - i
  {
    hide Ch;
    if i < j { LineCommentIs(s, i + 1, j); }
  }
}
