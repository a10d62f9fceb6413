/** Token kinds, tokens and the operator precedence table shared by the lexer
    and the parser.  A Go string is a sequence of bytes; here it is a
    sequence of characters, one per byte. */
module Tokens {

  /** Token kinds.  The source names them by strings; only their distinctness
      matters here. */
  newtype TokenType = i: int | 0 <= i < 103
  const ILLEGAL: TokenType := 0
  const EOF: TokenType := 1
  const NEWLINE: TokenType := 2
  const IDENT: TokenType := 3
  const INT_LIT: TokenType := 4
  const FLOAT_LIT: TokenType := 5
  const STRING_LIT: TokenType := 6
  const DURATION_LIT: TokenType := 7
  const OBJECT: TokenType := 8
  const BLUEPRINT: TokenType := 9
  const ACTOR: TokenType := 10
  const AGENT: TokenType := 11
  const TOOL: TokenType := 12
  const MCP: TokenType := 13
  const SERVICE: TokenType := 14
  const PIPELINE: TokenType := 15
  const PROTOCOL: TokenType := 16
  const IMPL: TokenType := 17
  const EFFECT: TokenType := 18
  const HANDLE: TokenType := 19
  const FLOW: TokenType := 20
  const FN: TokenType := 21
  const LET: TokenType := 22
  const MUT: TokenType := 23
  const TYPE: TokenType := 24
  const ENUM: TokenType := 25
  const UNION: TokenType := 26
  const SPAWN: TokenType := 27
  const RECEIVE: TokenType := 28
  const SEND: TokenType := 29
  const EMIT: TokenType := 30
  const YIELD: TokenType := 31
  const MATCH: TokenType := 32
  const IF: TokenType := 33
  const ELSE: TokenType := 34
  const FOR: TokenType := 35
  const IN: TokenType := 36
  const WHILE: TokenType := 37
  const DO: TokenType := 38
  const RETURN: TokenType := 39
  const BREAK: TokenType := 40
  const CONTINUE: TokenType := 41
  const IMPORT: TokenType := 42
  const EXPORT: TokenType := 43
  const USE: TokenType := 44
  const WHERE: TokenType := 45
  const WITH: TokenType := 46
  const TRUE: TokenType := 47
  const FALSE: TokenType := 48
  const NIL: TokenType := 49
  const SELF: TokenType := 50
  const SUPER: TokenType := 51
  const ISO: TokenType := 52
  const TRN: TokenType := 53
  const REF: TokenType := 54
  const VAL: TokenType := 55
  const BOX: TokenType := 56
  const TAG: TokenType := 57
  const STREAM: TokenType := 58
  const PARTITION: TokenType := 59
  const MERGE: TokenType := 60
  const WINDOW: TokenType := 61
  const SINK: TokenType := 62
  const SOURCE: TokenType := 63
  const TRANSFORM: TokenType := 64
  const DELEGATE: TokenType := 65
  const ASYNC: TokenType := 66
  const AWAIT: TokenType := 67
  const ARROW: TokenType := 68
  const FAT_ARROW: TokenType := 69
  const PIPE_FORWARD: TokenType := 70
  const SEND_OP: TokenType := 71
  const QUESTION: TokenType := 72
  const DOUBLE_QUESTION: TokenType := 73
  const SPREAD: TokenType := 74
  const PLUS: TokenType := 75
  const MINUS: TokenType := 76
  const STAR: TokenType := 77
  const SLASH: TokenType := 78
  const PERCENT: TokenType := 79
  const EQ: TokenType := 80
  const NEQ: TokenType := 81
  const LT: TokenType := 82
  const GT: TokenType := 83
  const LTE: TokenType := 84
  const GTE: TokenType := 85
  const AND: TokenType := 86
  const OR: TokenType := 87
  const BANG: TokenType := 88
  const ASSIGN: TokenType := 89
  const PLUS_ASSIGN: TokenType := 90
  const MINUS_ASSIGN: TokenType := 91
  const LPAREN: TokenType := 92
  const RPAREN: TokenType := 93
  const LBRACE: TokenType := 94
  const RBRACE: TokenType := 95
  const LBRACKET: TokenType := 96
  const RBRACKET: TokenType := 97
  const COMMA: TokenType := 98
  const COLON: TokenType := 99
  const SEMICOLON: TokenType := 100
  const DOT: TokenType := 101
  const AT: TokenType := 102

  /** What the grammar sees of a token. */
  datatype Sym = Sym(typ: TokenType, lit: string)

  /** A token with its 1-based position. */
  datatype Token = Token(sym: Sym, line: int, col: int)

  const LOWEST: nat := 1
  const SEND_PREC: nat := 2
  const NULLCOALESCE: nat := 3
  const OR_PREC: nat := 4
  const AND_PREC: nat := 5
  const EQUALS: nat := 6
  const LESSGREATER: nat := 7
  const SUM: nat := 8
  const PRODUCT: nat := 9
  const PREFIX: nat := 10
  const POSTFIX: nat := 11
  const CALL: nat := 12
  const FIELD: nat := 13

  /** The precedence table; every kind outside it binds at LOWEST. */
  function Precedence(t: TokenType): nat {
    if t == SEND_OP || t == ASSIGN || t == PLUS_ASSIGN || t == MINUS_ASSIGN then SEND_PREC
    else if t == DOUBLE_QUESTION then NULLCOALESCE
    else if t == OR then OR_PREC
    else if t == AND then AND_PREC
    else if t == EQ || t == NEQ then EQUALS
    else if t == LT || t == GT || t == LTE || t == GTE then LESSGREATER
    else if t == PLUS || t == MINUS then SUM
    else if t == STAR || t == SLASH || t == PERCENT then PRODUCT
    else if t == QUESTION then POSTFIX
    else if t == LPAREN then CALL
    else if t == DOT || t == LBRACKET then FIELD
    else LOWEST
  }
}
