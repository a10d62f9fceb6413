/** What the lexer computes: tokens and positions as functions of the input
    and the cursor. */
module Lexing {
  import opened Tokens

  /** The cursor: byte offset and the 1-based position the lexer keeps for it. */
  datatype State = State(pos: nat, line: int, col: int)

  const NUL: char := '\0'

  /** The byte at `i`, or NUL past the end. */
  function Ch(s: string, i: nat): char {
    if i < |s| then s[i] else NUL
  }

  predicate IsLetter(c: char) {
    'a' <= c <= 'z' || 'A' <= c <= 'Z' || c == '_'
  }

  predicate IsDigit(c: char) {
    '0' <= c <= '9'
  }

  predicate IsBlank(c: char) {
    c == ' ' || c == '\t' || c == '\r'
  }

  /** The keyword table. */
  function LookupIdent(word: string): (t: TokenType)
    ensures t == IDENT || OBJECT <= t <= AWAIT
  {
    match word
    case "object" => OBJECT
    case "blueprint" => BLUEPRINT
    case "actor" => ACTOR
    case "agent" => AGENT
    case "tool" => TOOL
    case "mcp" => MCP
    case "service" => SERVICE
    case "pipeline" => PIPELINE
    case "protocol" => PROTOCOL
    case "impl" => IMPL
    case "effect" => EFFECT
    case "handle" => HANDLE
    case "flow" => FLOW
    case "fn" => FN
    case "let" => LET
    case "mut" => MUT
    case "type" => TYPE
    case "enum" => ENUM
    case "union" => UNION
    case "spawn" => SPAWN
    case "receive" => RECEIVE
    case "send" => SEND
    case "emit" => EMIT
    case "yield" => YIELD
    case "match" => MATCH
    case "if" => IF
    case "else" => ELSE
    case "for" => FOR
    case "in" => IN
    case "while" => WHILE
    case "do" => DO
    case "return" => RETURN
    case "break" => BREAK
    case "continue" => CONTINUE
    case "import" => IMPORT
    case "export" => EXPORT
    case "use" => USE
    case "where" => WHERE
    case "with" => WITH
    case "true" => TRUE
    case "false" => FALSE
    case "nil" => NIL
    case "self" => SELF
    case "super" => SUPER
    case "iso" => ISO
    case "trn" => TRN
    case "ref" => REF
    case "val" => VAL
    case "box" => BOX
    case "tag" => TAG
    case "stream" => STREAM
    case "partition" => PARTITION
    case "merge" => MERGE
    case "window" => WINDOW
    case "sink" => SINK
    case "source" => SOURCE
    case "transform" => TRANSFORM
    case "delegate" => DELEGATE
    case "async" => ASYNC
    case "await" => AWAIT
    case _ => IDENT
  }

  function Start(): State {
    State(0, 1, 1)
  }

  /** `n` calls of `readChar`. */
  function Step(st: State, n: nat): State {
    State(st.pos + n, st.line, st.col + n)
  }

  // ---------- trivia: blanks and comments ----------

  function BlankEnd(s: string, i: nat): (j: nat)
    ensures j >= i && !IsBlank(Ch(s, j))
    decreases |s| - i
  {
    if IsBlank(Ch(s, i)) then BlankEnd(s, i + 1) else i
  }

  function LineCommentEnd(s: string, i: nat): (j: nat)
    ensures j >= i && (Ch(s, j) == '\n' || Ch(s, j) == NUL)
    decreases |s| - i
  {
    if Ch(s, i) == '\n' || Ch(s, i) == NUL then i else LineCommentEnd(s, i + 1)
  }

  /** The loop of `skipMultiLineComment`, after the opening `/` and `*`. */
  function BlockComment(s: string, st: State): (r: State)
    ensures r.pos >= st.pos
    decreases |s| - st.pos
  {
    var c := Ch(s, st.pos);
    if c == NUL then st
    else if c == '*' && Ch(s, st.pos + 1) == '/' then Step(st, 2)
    else BlockComment(s, Step(if c == '\n' then State(st.pos, st.line + 1, 0) else st, 1))
  }

  /** Where the next token starts: past blanks and comments. */
  function SkipTrivia(s: string, st: State): (r: State)
    ensures r.pos >= st.pos
    decreases |s| - st.pos
  {
    var a := Step(st, BlankEnd(s, st.pos) - st.pos);
    if Ch(s, a.pos) == '/' && Ch(s, a.pos + 1) == '/' then
      SkipTrivia(s, Step(a, LineCommentEnd(s, a.pos) - a.pos))
    else if Ch(s, a.pos) == '/' && Ch(s, a.pos + 1) == '*' then
      SkipTrivia(s, BlockComment(s, Step(a, 2)))
    else a
  }

  // ---------- words and numbers ----------

  function WordEnd(s: string, i: nat): (j: nat)
    ensures j >= i && (i <= |s| ==> j <= |s|)
    decreases |s| - i
  {
    if IsLetter(Ch(s, i)) || IsDigit(Ch(s, i)) then WordEnd(s, i + 1) else i
  }

  function DigitsEnd(s: string, i: nat): (j: nat)
    ensures j >= i && (i <= |s| ==> j <= |s|)
    decreases |s| - i
  {
    if IsDigit(Ch(s, i)) then DigitsEnd(s, i + 1) else i
  }

  /** Length of a duration unit at `i` that ends at a word boundary, or 0. */
  function DurationSuffix(s: string, i: nat): (n: nat)
    ensures n <= 2 && (n > 0 ==> i + n <= |s|)
  {
    var c := Ch(s, i);
    var next := Ch(s, i + 1);
    var boundary := Ch(s, i + 2);
    if (c == 'n' || c == 'u' || c == 'm') && next == 's' && !IsLetter(boundary) && !IsDigit(boundary) then 2
    else if (c == 's' || c == 'm' || c == 'h') && !IsLetter(next) && !IsDigit(next) then 1
    else 0
  }

  predicate HasFraction(s: string, i: nat) {
    Ch(s, i) == '.' && IsDigit(Ch(s, i + 1))
  }

  /** The end of the digits and the optional fraction. */
  function DecimalEnd(s: string, i: nat): (j: nat)
    ensures j >= i && (i <= |s| ==> j <= |s|)
  {
    var j := DigitsEnd(s, i);
    if HasFraction(s, j) then DigitsEnd(s, j + 1) else j
  }

  function NumberEnd(s: string, i: nat): (j: nat)
    ensures j >= i && (i <= |s| ==> j <= |s|)
  {
    DecimalEnd(s, i) + DurationSuffix(s, DecimalEnd(s, i))
  }

  function NumberType(s: string, i: nat): TokenType {
    if DurationSuffix(s, DecimalEnd(s, i)) > 0 then DURATION_LIT
    else if HasFraction(s, DigitsEnd(s, i)) then FLOAT_LIT
    else INT_LIT
  }

  // ---------- strings ----------

  /** What an escape stands for; unknown ones are kept verbatim. */
  function Unescape(c: char): string {
    if c == '"' then "\""
    else if c == '\\' then "\\"
    else if c == 'n' then "\n"
    else if c == 't' then "\t"
    else if c == 'r' then "\r"
    else ['\\', c]
  }

  /** The content of a string literal from `i` on, and where it stops. */
  function StringBody(s: string, i: nat): (r: (string, nat))
    ensures r.1 >= i
    decreases |s| - i
  {
    var c := Ch(s, i);
    if c == '"' || c == NUL then ("", i)
    else if c == '\\' then
      var rest := StringBody(s, i + 2);
      (Unescape(Ch(s, i + 1)) + rest.0, rest.1)
    else
      var rest := StringBody(s, i + 1);
      ([c] + rest.0, rest.1)
  }

  lemma StringBodyEnd(s: string, i: nat)
    requires Ch(s, i) == '"' || Ch(s, i) == NUL
    ensures StringBody(s, i) == ("", i)
  {
  }

  lemma StringBodyStep(s: string, i: nat)
    requires Ch(s, i) != '"' && Ch(s, i) != NUL
    ensures Ch(s, i) == '\\' ==>
              StringBody(s, i) == (Unescape(Ch(s, i + 1)) + StringBody(s, i + 2).0, StringBody(s, i + 2).1)
    ensures Ch(s, i) != '\\' ==>
              StringBody(s, i) == ([Ch(s, i)] + StringBody(s, i + 1).0, StringBody(s, i + 1).1)
  {
    hide Unescape;
  }

  // ---------- operators and delimiters ----------

  /** Kind and length of the operator or delimiter at `i`; anything else is
      one ILLEGAL byte. */
  function Operator(s: string, i: nat): (r: (TokenType, nat))
    ensures r.1 > 0 && (i < |s| ==> i + r.1 <= |s|)
    ensures r.0 != EOF
  {
    var c := Ch(s, i);
    var n := Ch(s, i + 1);
    if c == '-' then if n == '>' then (ARROW, 2) else if n == '=' then (MINUS_ASSIGN, 2) else (MINUS, 1)
    else if c == '=' then if n == '>' then (FAT_ARROW, 2) else if n == '=' then (EQ, 2) else (ASSIGN, 1)
    else if c == '|' then if n == '>' then (PIPE_FORWARD, 2) else if n == '|' then (OR, 2) else (ILLEGAL, 1)
    else if c == '<' then if n == '-' then (SEND_OP, 2) else if n == '=' then (LTE, 2) else (LT, 1)
    else if c == '>' then if n == '=' then (GTE, 2) else (GT, 1)
    else if c == '?' then if n == '?' then (DOUBLE_QUESTION, 2) else (QUESTION, 1)
    else if c == '.' then if n == '.' && Ch(s, i + 2) == '.' then (SPREAD, 3) else (DOT, 1)
    else if c == '!' then if n == '=' then (NEQ, 2) else (BANG, 1)
    else if c == '&' then if n == '&' then (AND, 2) else (ILLEGAL, 1)
    else if c == '+' then if n == '=' then (PLUS_ASSIGN, 2) else (PLUS, 1)
    else if c == '*' then (STAR, 1)
    else if c == '/' then (SLASH, 1)
    else if c == '%' then (PERCENT, 1)
    else if c == '(' then (LPAREN, 1)
    else if c == ')' then (RPAREN, 1)
    else if c == '{' then (LBRACE, 1)
    else if c == '}' then (RBRACE, 1)
    else if c == '[' then (LBRACKET, 1)
    else if c == ']' then (RBRACKET, 1)
    else if c == ',' then (COMMA, 1)
    else if c == ':' then (COLON, 1)
    else if c == ';' then (SEMICOLON, 1)
    else if c == '@' then (AT, 1)
    else (ILLEGAL, 1)
  }

  // ---------- tokens ----------

  /** The token that starts at `a` and the cursor after it. */
  function Scan(s: string, a: State): (r: (Sym, State))
    ensures r.1.pos > a.pos
    ensures r.0.typ == EOF <==> Ch(s, a.pos) == NUL
  {
    var c := Ch(s, a.pos);
    if c == NUL then (Sym(EOF, ""), Step(a, 1))
    else if c == '\n' then (Sym(NEWLINE, "\n"), State(a.pos + 1, a.line + 1, 1))
    else if c == '"' then
      var body := StringBody(s, a.pos + 1);
      (Sym(STRING_LIT, body.0), Step(a, body.1 + 1 - a.pos))
    else if IsLetter(c) then
      var end := WordEnd(s, a.pos);
      (Sym(LookupIdent(s[a.pos..end]), s[a.pos..end]), Step(a, end - a.pos))
    else if IsDigit(c) then
      var end := NumberEnd(s, a.pos);
      (Sym(NumberType(s, a.pos), s[a.pos..end]), Step(a, end - a.pos))
    else
      var op := Operator(s, a.pos);
      (Sym(op.0, s[a.pos..a.pos + op.1]), Step(a, op.1))
  }

  /** `NextToken`. */
  function Next(s: string, st: State): (r: (Token, State))
    ensures r.1.pos > st.pos
    ensures r.0.sym.typ != EOF ==> st.pos < |s|
  {
    var a := SkipTrivia(s, st);
    var t := Scan(s, a);
    (Token(t.0, a.line, a.col), t.1)
  }

  /** `NextToken` after its blanks: a comment restarts it, anything else is
      scanned. */
  lemma NextUnfolds(s: string, st: State)
    ensures var a := Step(st, BlankEnd(s, st.pos) - st.pos);
            var c, n := Ch(s, a.pos), Ch(s, a.pos + 1);
            && (c == '/' && n == '/' ==> Next(s, st) == Next(s, Step(a, LineCommentEnd(s, a.pos) - a.pos)))
            && (c == '/' && n == '*' ==> Next(s, st) == Next(s, BlockComment(s, Step(a, 2))))
            && (!(c == '/' && (n == '/' || n == '*')) ==>
                  Next(s, st) == (Token(Scan(s, a).0, a.line, a.col), Scan(s, a).1))
  {
    hide Scan, LineCommentEnd, BlockComment, BlankEnd;
  }

  /** `CollectAll`: every token up to and including the first EOF. */
  function Collect(s: string, st: State): (r: seq<Token>)
    ensures |r| > 0 && r[|r| - 1].sym.typ == EOF
    ensures forall i :: 0 <= i < |r| - 1 ==> r[i].sym.typ != EOF
    decreases |s| - st.pos
  {
    var t := Next(s, st);
    if t.0.sym.typ == EOF then [t.0] else [t.0] + Collect(s, t.1)
  }
}
