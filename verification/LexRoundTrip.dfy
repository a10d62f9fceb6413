/** Rendering well-formed tokens and lexing the text gives the tokens back. */
module LexRoundTrip {
  import opened Tokens
  import opened Lexing

  // ---------- well-formed tokens ----------

  predicate AllDigits(s: string) {
    |s| > 0 && forall k :: 0 <= k < |s| ==> IsDigit(s[k])
  }

  predicate IsDecimal(s: string) {
    exists k :: 0 <= k < |s| && s[k] == '.' && AllDigits(s[..k]) && AllDigits(s[k + 1..])
  }

  predicate IsUnit(u: string) {
    u == "ns" || u == "us" || u == "ms" || u == "s" || u == "m" || u == "h"
  }

  predicate IsDuration(s: string) {
    exists k :: 0 <= k <= |s| && IsUnit(s[k..]) && (AllDigits(s[..k]) || IsDecimal(s[..k]))
  }

  predicate IsWord(s: string) {
    |s| > 0 && IsLetter(s[0]) && forall k :: 0 <= k < |s| ==> IsLetter(s[k]) || IsDigit(s[k])
  }

  predicate IsShortOperator(s: Sym) {
    || s == Sym(PLUS, "+") || s == Sym(MINUS, "-") || s == Sym(STAR, "*") || s == Sym(SLASH, "/")
    || s == Sym(PERCENT, "%")
    || s == Sym(LT, "<") || s == Sym(GT, ">") || s == Sym(BANG, "!") || s == Sym(ASSIGN, "=") || s == Sym(QUESTION, "?")
    || s == Sym(DOT, ".") || s == Sym(LPAREN, "(") || s == Sym(RPAREN, ")") || s == Sym(LBRACE, "{")
    || s == Sym(RBRACE, "}")
    || s == Sym(LBRACKET, "[") || s == Sym(RBRACKET, "]") || s == Sym(COMMA, ",") || s == Sym(COLON, ":")
    || s == Sym(SEMICOLON, ";") || s == Sym(AT, "@")
  }

  predicate IsLongOperator(s: Sym) {
    || s == Sym(ARROW, "->") || s == Sym(MINUS_ASSIGN, "-=") || s == Sym(FAT_ARROW, "=>") || s == Sym(EQ, "==")
    || s == Sym(PIPE_FORWARD, "|>") || s == Sym(OR, "||") || s == Sym(SEND_OP, "<-") || s == Sym(LTE, "<=")
    || s == Sym(GTE, ">=") || s == Sym(DOUBLE_QUESTION, "??") || s == Sym(SPREAD, "...") || s == Sym(NEQ, "!=")
    || s == Sym(AND, "&&") || s == Sym(PLUS_ASSIGN, "+=")
  }

  /** Tokens with a spelling: strings of any bytes but NUL, words with the
      kind the keyword table gives them, numbers, operators and newlines. */
  predicate WellFormed(s: Sym) {
    || (s.typ == STRING_LIT && NUL !in s.lit)
    || (IsWord(s.lit) && s.typ == LookupIdent(s.lit))
    || (s.typ == INT_LIT && AllDigits(s.lit))
    || (s.typ == FLOAT_LIT && IsDecimal(s.lit))
    || (s.typ == DURATION_LIT && IsDuration(s.lit))
    || IsShortOperator(s) || IsLongOperator(s)
    || s == Sym(NEWLINE, "\n")
  }

  // ---------- rendering ----------

  function EscapeByte(c: char): string {
    if c == '"' then "\\\""
    else if c == '\\' then "\\\\"
    else if c == '\n' then "\\n"
    else if c == '\t' then "\\t"
    else if c == '\r' then "\\r"
    else [c]
  }

  function Escape(s: string): string {
    if |s| == 0 then "" else EscapeByte(s[0]) + Escape(s[1..])
  }

  function Text(s: Sym): string {
    if s.typ == STRING_LIT then "\"" + (Escape(s.lit) + "\"") else s.lit
  }

  /** The tokens in order, one space between neighbours. */
  function Render(ss: seq<Sym>): string
    decreases |ss|, 0
  {
    if |ss| == 0 then "" else Text(ss[0]) + RenderRest(ss[1..])
  }

  function RenderRest(ss: seq<Sym>): string
    decreases |ss|, 1
  {
    if |ss| == 0 then "" else " " + Render(ss)
  }

  // ---------- reading text back ----------

  /** `t` stands at offset `i`, followed by a space or the end of input. */
  predicate Stands(s: string, i: nat, t: string) {
    i + |t| <= |s| && s[i..i + |t|] == t && (i + |t| == |s| || s[i + |t|] == ' ')
  }

  lemma StandsAt(s: string, i: nat, t: string, k: nat)
    requires Stands(s, i, t)
    ensures k < |t| ==> Ch(s, i + k) == t[k]
    ensures k == |t| ==> Ch(s, i + k) == ' ' || Ch(s, i + k) == NUL
  {
    if k < |t| { assert s[i..i + |t|][k] == s[i + k]; }
  }

  lemma {:induction false} WordEndIs(s: string, i: nat, j: nat)
    requires i <= j && forall k :: i <= k < j ==> IsLetter(Ch(s, k)) || IsDigit(Ch(s, k))
    requires !IsLetter(Ch(s, j)) && !IsDigit(Ch(s, j))
    ensures WordEnd(s, i) == j
    decreases j - i
  {
    if i < j { WordEndIs(s, i + 1, j); }
  }

  lemma {:induction false} DigitsEndIs(s: string, i: nat, j: nat)
    requires i <= j && (forall k :: i <= k < j ==> IsDigit(Ch(s, k))) && !IsDigit(Ch(s, j))
    ensures DigitsEnd(s, i) == j
    decreases j - i
  {
    if i < j { DigitsEndIs(s, i + 1, j); }
  }

  /** Scanning the text of a token yields it and stops right after it. */
  predicate Scans(s: string, a: State, sym: Sym) {
    var r := Scan(s, a);
    r.0 == sym && r.1.pos == a.pos + |Text(sym)|
  }

  lemma ScanWord(s: string, a: State, sym: Sym)
    requires IsWord(sym.lit) && sym.typ == LookupIdent(sym.lit) && Stands(s, a.pos, sym.lit)
    ensures Scans(s, a, sym)
  {
    hide LookupIdent, Stands;
    var w := sym.lit;
    forall k | a.pos <= k < a.pos + |w| ensures IsLetter(Ch(s, k)) || IsDigit(Ch(s, k)) {
      StandsAt(s, a.pos, w, k - a.pos);
    }
    StandsAt(s, a.pos, w, |w|);
    StandsAt(s, a.pos, w, 0);
    WordEndIs(s, a.pos, a.pos + |w|);
    StandsText(s, a.pos, w);
    hide Operator, NumberEnd, NumberType, StringBody, WordEnd;
  }

  lemma StandsText(s: string, i: nat, t: string)
    requires Stands(s, i, t)
    ensures i + |t| <= |s| && s[i..i + |t|] == t
  {
  }

  /** Digits at `i` up to `j`, where something else begins. */
  predicate DigitsAt(s: string, i: nat, j: nat) {
    i < j && (forall k :: i <= k < j ==> IsDigit(Ch(s, k))) && !IsDigit(Ch(s, j))
  }

  lemma DigitsStand(s: string, i: nat, t: string, from: nat, to: nat)
    requires Stands(s, i, t) && from <= to <= |t| && AllDigits(t[from..to])
    requires to < |t| ==> !IsDigit(t[to])
    ensures DigitsAt(s, i + from, i + to)
  {
    hide Stands;
    forall k | i + from <= k < i + to ensures IsDigit(Ch(s, k)) {
      StandsAt(s, i, t, k - i);
      assert t[from..to][k - i - from] == t[k - i];
    }
    StandsAt(s, i, t, to);
  }

  lemma DecimalEndInt(s: string, i: nat, j: nat)
    requires DigitsAt(s, i, j) && Ch(s, j) != '.'
    ensures DigitsEnd(s, i) == j && DecimalEnd(s, i) == j && !HasFraction(s, j)
  {
    DigitsEndIs(s, i, j);
  }

  lemma DecimalEndFloat(s: string, i: nat, j: nat, k: nat)
    requires DigitsAt(s, i, j) && Ch(s, j) == '.' && DigitsAt(s, j + 1, k)
    ensures DigitsEnd(s, i) == j && DecimalEnd(s, i) == k && HasFraction(s, j)
  {
    DigitsEndIs(s, i, j);
    DigitsEndIs(s, j + 1, k);
  }

  lemma ScanNumber(s: string, a: State, sym: Sym)
    requires Stands(s, a.pos, sym.lit) && |sym.lit| > 0 && IsDigit(sym.lit[0])
    requires NumberEnd(s, a.pos) == a.pos + |sym.lit| && NumberType(s, a.pos) == sym.typ && sym.typ != STRING_LIT
    ensures Scans(s, a, sym)
  {
    hide Stands, NumberEnd, NumberType, StringBody, WordEnd, Operator, LookupIdent;
    StandsAt(s, a.pos, sym.lit, 0);
    StandsText(s, a.pos, sym.lit);
  }

  lemma ScanInt(s: string, a: State, sym: Sym)
    requires sym.typ == INT_LIT && AllDigits(sym.lit) && Stands(s, a.pos, sym.lit)
    ensures Scans(s, a, sym)
  {
    hide Stands, Scans;
    var t := sym.lit;
    assert t[0..|t|] == t;
    DigitsStand(s, a.pos, t, 0, |t|);
    StandsAt(s, a.pos, t, |t|);
    DecimalEndInt(s, a.pos, a.pos + |t|);
    hide DecimalEnd, DigitsEnd;
    ScanNumber(s, a, sym);
  }

  /** The parts of a decimal standing at `i`. */
  lemma DecimalStands(s: string, i: nat, t: string, n: nat)
    requires Stands(s, i, t) && n <= |t| && IsDecimal(t[..n]) && (n < |t| ==> !IsDigit(t[n]))
    ensures DecimalEnd(s, i) == i + n && HasFraction(s, DigitsEnd(s, i)) && n > 0 && IsDigit(t[0])
  {
    hide Stands, DecimalEnd, DigitsEnd, HasFraction;
    var d := t[..n];
    var k :| 0 <= k < |d| && d[k] == '.' && AllDigits(d[..k]) && AllDigits(d[k + 1..]);
    assert t[0..k] == d[..k] && t[k + 1..n] == d[k + 1..];
    assert IsDigit(d[..k][0]);
    DigitsStand(s, i, t, 0, k);
    DigitsStand(s, i, t, k + 1, n);
    StandsAt(s, i, t, k);
    DecimalEndFloat(s, i, i + k, i + n);
  }

  lemma ScanFloat(s: string, a: State, sym: Sym)
    requires sym.typ == FLOAT_LIT && IsDecimal(sym.lit) && Stands(s, a.pos, sym.lit)
    ensures Scans(s, a, sym)
  {
    hide Stands, Scans, DecimalEnd, DigitsEnd, IsDecimal, HasFraction;
    var t := sym.lit;
    assert t[..|t|] == t;
    DecimalStands(s, a.pos, t, |t|);
    StandsAt(s, a.pos, t, |t|);
    ScanNumber(s, a, sym);
  }

  lemma SuffixStands(s: string, i: nat, t: string, k: nat)
    requires Stands(s, i, t) && k <= |t| && IsUnit(t[k..])
    ensures DurationSuffix(s, i + k) == |t| - k > 0
    ensures Ch(s, i + k) != '.' && !IsDigit(t[k])
  {
    hide Stands;
    var u := t[k..];
    assert |u| <= 2 && u[0] == t[k] && (|u| == 2 ==> u[1] == t[k + 1]);
    StandsAt(s, i, t, k);
    StandsAt(s, i, t, k + 1);
    StandsAt(s, i, t, |t|);
  }

  lemma ScanDuration(s: string, a: State, sym: Sym)
    requires sym.typ == DURATION_LIT && IsDuration(sym.lit) && Stands(s, a.pos, sym.lit)
    ensures Scans(s, a, sym)
  {
    hide Stands, Scans, IsUnit, IsDecimal, DurationSuffix, HasFraction;
    var t := sym.lit;
    var k :| 0 <= k <= |t| && IsUnit(t[k..]) && (AllDigits(t[..k]) || IsDecimal(t[..k]));
    SuffixStands(s, a.pos, t, k);
    if AllDigits(t[..k]) {
      assert t[0..k] == t[..k] && IsDigit(t[..k][0]);
      DigitsStand(s, a.pos, t, 0, k);
      DecimalEndInt(s, a.pos, a.pos + k);
    } else {
      DecimalStands(s, a.pos, t, k);
    }
    hide DecimalEnd, DigitsEnd;
    ScanNumber(s, a, sym);
  }

  lemma ScanShort(s: string, a: State, sym: Sym)
    requires IsShortOperator(sym) && Stands(s, a.pos, sym.lit)
    ensures Scans(s, a, sym) && !IsBlank(Ch(s, a.pos))
    ensures Ch(s, a.pos + 1) == ' ' || Ch(s, a.pos + 1) == NUL
  {
    hide StringBody, WordEnd, LookupIdent, NumberEnd, NumberType, Stands, Operator;
    ShortStands(s, a.pos, sym);
    StandsText(s, a.pos, sym.lit);
  }

  /** A short operator and a blank, or the end, behind it. */
  lemma ShortStands(s: string, i: nat, sym: Sym)
    requires IsShortOperator(sym) && Stands(s, i, sym.lit)
    ensures Operator(s, i) == (sym.typ, 1) && |sym.lit| == 1 && sym.typ != STRING_LIT
    ensures Ch(s, i + 1) == ' ' || Ch(s, i + 1) == NUL
    ensures var c := Ch(s, i); !IsBlank(c) && c != NUL && c != '\n' && c != '"' && !IsLetter(c) && !IsDigit(c)
  {
    hide Stands;
    StandsAt(s, i, sym.lit, 0);
    StandsAt(s, i, sym.lit, 1);
  }

  lemma ScanLong(s: string, a: State, sym: Sym)
    requires IsLongOperator(sym) && Stands(s, a.pos, sym.lit)
    ensures Scans(s, a, sym) && !IsBlank(Ch(s, a.pos)) && Ch(s, a.pos) != '/'
  {
    hide StringBody, WordEnd, LookupIdent, NumberEnd, NumberType, Stands;
    StandsAt(s, a.pos, sym.lit, 0);
    StandsAt(s, a.pos, sym.lit, 1);
    StandsAt(s, a.pos, sym.lit, 2);
    StandsText(s, a.pos, sym.lit);
  }

  // ---------- strings ----------

  lemma EscapeUndone(c: char)
    requires c != NUL
    ensures var e := EscapeByte(c);
            && e[0] != '"' && e[0] != NUL
            && (|e| == 1 ==> e == [c] && c != '\\')
            && (|e| != 1 ==> |e| == 2 && e[0] == '\\' && Unescape(e[1]) == [c])
  {
  }

  lemma EscapeSplits(s: string, i: nat, e: string, rest: string)
    requires i + |e + rest| < |s| && s[i..i + |e + rest|] == e + rest && 1 <= |e| <= 2
    ensures s[i] == e[0] && (|e| == 2 ==> s[i + 1] == e[1])
    ensures s[i + |e|..i + |e| + |rest|] == rest
  {
    var part := s[i..i + |e + rest|];
    assert part[..|e|] == e && part[|e|..] == rest;
    assert s[i] == part[0] && (|e| == 2 ==> s[i + 1] == part[1]);
    assert s[i + |e|..i + |e| + |rest|] == part[|e|..];
  }

  /** Unescaping what `Escape` wrote, up to the closing quote. */
  lemma {:induction false} StringBodyIs(s: string, i: nat, lit: string)
    requires NUL !in lit && i + |Escape(lit)| < |s| && s[i..i + |Escape(lit)|] == Escape(lit)
    requires s[i + |Escape(lit)|] == '"'
    ensures StringBody(s, i) == (lit, i + |Escape(lit)|)
    decreases |lit|
  {
    hide StringBody;
    if |lit| == 0 {
      StringBodyEnd(s, i);
    } else {
      var e := EscapeByte(lit[0]);
      var rest := Escape(lit[1..]);
      EscapeUndone(lit[0]);
      assert lit[0] in lit;
      EscapeSplits(s, i, e, rest);
      hide EscapeByte, Unescape, Escape;
      StringBodyStep(s, i);
      StringBodyIs(s, i + |e|, lit[1..]);
      assert [lit[0]] + lit[1..] == lit;
    }
  }

  lemma ScanString(s: string, a: State, sym: Sym)
    requires sym.typ == STRING_LIT && NUL !in sym.lit && Stands(s, a.pos, Text(sym))
    ensures Scans(s, a, sym)
  {
    hide Escape, Unescape, Stands, StringBody, WordEnd, LookupIdent, NumberEnd, NumberType, Operator;
    QuotedStands(s, a.pos, Escape(sym.lit));
    StringBodyIs(s, a.pos + 1, sym.lit);
  }

  /** Where a quoted text stands, so do its two quotes and what is between. */
  lemma QuotedStands(s: string, i: nat, e: string)
    requires Stands(s, i, "\"" + (e + "\""))
    ensures i + 1 + |e| < |s| && s[i] == '"' && s[i + 1 + |e|] == '"' && s[i + 1..i + 1 + |e|] == e
  {
    var t := "\"" + (e + "\"");
    assert |t| == |e| + 2 && t[0] == '"' && t[1 + |e|] == '"';
    forall k | 0 <= k < |t| ensures i + k < |s| && s[i + k] == t[k] {
      StandsIn(s, i, t, k);
    }
    forall k | 0 <= k < |e| ensures s[i + 1 + k] == e[k] {
      assert t[1 + k] == e[k] && s[i + (1 + k)] == t[1 + k];
    }
  }

  lemma StandsIn(s: string, i: nat, t: string, k: nat)
    requires Stands(s, i, t) && k < |t|
    ensures i + k < |s| && s[i + k] == t[k]
  {
    assert s[i..i + |t|][k] == s[i + k];
  }

  // ---------- the round trip ----------

  lemma ScanToken(s: string, a: State, sym: Sym)
    requires WellFormed(sym) && Stands(s, a.pos, Text(sym))
    ensures Scans(s, a, sym)
  {
    hide Scans, Stands, LookupIdent, IsWord, AllDigits, IsDecimal, IsDuration, IsShortOperator, IsLongOperator, Escape;
    if sym.typ == STRING_LIT && NUL !in sym.lit {
      ScanString(s, a, sym);
    } else if IsWord(sym.lit) && sym.typ == LookupIdent(sym.lit) {
      ScanWord(s, a, sym);
    } else if sym.typ == INT_LIT {
      ScanIntOrOther(s, a, sym);
    } else if sym.typ == FLOAT_LIT {
      ScanFloatOrOther(s, a, sym);
    } else if sym.typ == DURATION_LIT {
      ScanDurationOrOther(s, a, sym);
    } else {
      ScanMark(s, a, sym);
    }
  }

  lemma MarkKind(sym: Sym)
    requires IsShortOperator(sym) || IsLongOperator(sym) || sym == Sym(NEWLINE, "\n")
    ensures sym.typ >= ARROW || sym.typ == NEWLINE
    ensures |sym.lit| > 0 && !IsBlank(sym.lit[0])
  {
  }

  lemma ScanIntOrOther(s: string, a: State, sym: Sym)
    requires WellFormed(sym) && sym.typ == INT_LIT && !(IsWord(sym.lit) && sym.typ == LookupIdent(sym.lit))
             && Stands(s, a.pos, Text(sym))
    ensures Scans(s, a, sym)
  {
    hide Scans, Stands, LookupIdent, IsWord, AllDigits, IsDecimal, IsDuration, IsShortOperator, IsLongOperator;
    if !AllDigits(sym.lit) { MarkKind(sym); }
    ScanInt(s, a, sym);
  }

  lemma ScanFloatOrOther(s: string, a: State, sym: Sym)
    requires WellFormed(sym) && sym.typ == FLOAT_LIT && !(IsWord(sym.lit) && sym.typ == LookupIdent(sym.lit))
             && Stands(s, a.pos, Text(sym))
    ensures Scans(s, a, sym)
  {
    hide Scans, Stands, LookupIdent, IsWord, AllDigits, IsDecimal, IsDuration, IsShortOperator, IsLongOperator;
    if !IsDecimal(sym.lit) { MarkKind(sym); }
    ScanFloat(s, a, sym);
  }

  lemma ScanDurationOrOther(s: string, a: State, sym: Sym)
    requires WellFormed(sym) && sym.typ == DURATION_LIT && !(IsWord(sym.lit) && sym.typ == LookupIdent(sym.lit))
             && Stands(s, a.pos, Text(sym))
    ensures Scans(s, a, sym)
  {
    hide Scans, Stands, LookupIdent, IsWord, AllDigits, IsDecimal, IsDuration, IsShortOperator, IsLongOperator;
    if !IsDuration(sym.lit) { MarkKind(sym); }
    ScanDuration(s, a, sym);
  }

  lemma ScanMark(s: string, a: State, sym: Sym)
    requires IsShortOperator(sym) || IsLongOperator(sym) || sym == Sym(NEWLINE, "\n")
    requires Stands(s, a.pos, Text(sym))
    ensures Scans(s, a, sym)
  {
    hide Stands, StringBody, WordEnd, LookupIdent, NumberEnd, NumberType, Operator;
    MarkKind(sym);
    if sym == Sym(NEWLINE, "\n") {
      hide IsShortOperator, IsLongOperator;
      StandsAt(s, a.pos, sym.lit, 0);
    } else if IsShortOperator(sym) {
      hide Scans, IsShortOperator, IsLongOperator;
      ScanShort(s, a, sym);
    } else {
      hide Scans, IsShortOperator, IsLongOperator;
      ScanLong(s, a, sym);
    }
  }

  /** The text of a token starts neither with a blank nor with a comment. */
  lemma TextStarts(s: string, i: nat, sym: Sym)
    requires WellFormed(sym) && Stands(s, i, Text(sym))
    ensures |Text(sym)| > 0 && !IsBlank(Ch(s, i))
    ensures Ch(s, i) == '/' ==> Ch(s, i + 1) == ' ' || Ch(s, i + 1) == NUL
  {
    hide Stands, LookupIdent, Escape;
    if sym.typ == STRING_LIT && NUL !in sym.lit {
      StandsAt(s, i, Text(sym), 0);
    } else if IsWord(sym.lit) || AllDigits(sym.lit) {
      StandsAt(s, i, Text(sym), 0);
    } else if IsDecimal(sym.lit) {
      FirstDigit(sym.lit);
      StandsAt(s, i, Text(sym), 0);
    } else if IsDuration(sym.lit) {
      FirstDigitOfDuration(sym.lit);
      StandsAt(s, i, Text(sym), 0);
    } else {
      hide IsWord, AllDigits, IsDecimal, IsDuration;
      MarkStarts(s, i, sym);
    }
  }

  lemma FirstDigit(t: string)
    requires IsDecimal(t)
    ensures |t| > 0 && IsDigit(t[0])
  {
    var k :| 0 <= k < |t| && t[k] == '.' && AllDigits(t[..k]) && AllDigits(t[k + 1..]);
    assert t[..k][0] == t[0];
  }

  lemma FirstDigitOfDuration(t: string)
    requires IsDuration(t)
    ensures |t| > 0 && IsDigit(t[0])
  {
    hide IsDecimal, IsUnit;
    var k :| 0 <= k <= |t| && IsUnit(t[k..]) && (AllDigits(t[..k]) || IsDecimal(t[..k]));
    if IsDecimal(t[..k]) { FirstDigit(t[..k]); }
    assert t[..k][0] == t[0];
  }

  lemma MarkStarts(s: string, i: nat, sym: Sym)
    requires IsShortOperator(sym) || IsLongOperator(sym) || sym == Sym(NEWLINE, "\n")
    requires Stands(s, i, Text(sym))
    ensures |Text(sym)| > 0 && !IsBlank(Ch(s, i))
    ensures Ch(s, i) == '/' ==> Ch(s, i + 1) == ' ' || Ch(s, i + 1) == NUL
  {
    hide Stands, Scan;
    MarkKind(sym);
    StandsAt(s, i, sym.lit, 0);
    if IsShortOperator(sym) {
      hide IsShortOperator, IsLongOperator;
      ScanShort(s, State(i, 1, 1), sym);
    } else if IsLongOperator(sym) {
      hide IsShortOperator, IsLongOperator;
      ScanLong(s, State(i, 1, 1), sym);
    }
  }

  lemma TriviaIs(s: string, st: State, lead: nat)
    requires lead <= 1 && (lead == 1 ==> Ch(s, st.pos) == ' ')
    requires !IsBlank(Ch(s, st.pos + lead))
    requires Ch(s, st.pos + lead) == '/' ==> Ch(s, st.pos + lead + 1) != '/' && Ch(s, st.pos + lead + 1) != '*'
    ensures SkipTrivia(s, st).pos == st.pos + lead
  {
    assert BlankEnd(s, st.pos + lead) == st.pos + lead;
    assert BlankEnd(s, st.pos) == st.pos + lead;
  }

  /** What is left of the input from `i` on. */
  predicate Rest(s: string, i: nat, t: string) {
    i <= |s| && s[i..] == t
  }

  function Syms(ts: seq<Token>): (r: seq<Sym>)
    ensures |r| == |ts|
  {
    seq(|ts|, k requires 0 <= k < |ts| => ts[k].sym)
  }

  lemma RestSplit(s: string, i: nat, t: string, rest: string)
    requires Rest(s, i, t + rest) && (rest == "" || rest[0] == ' ')
    ensures Stands(s, i, t) && Rest(s, i + |t|, rest)
  {
    assert s[i..][..|t|] == t && s[i..][|t|..] == rest;
    assert s[i..i + |t|] == s[i..][..|t|] && s[i + |t|..] == s[i..][|t|..];
    if rest != "" { assert s[i + |t|] == s[i..][|t|]; }
  }

  lemma RestStarts(ss: seq<Sym>)
    ensures |ss| == 0 ==> RenderRest(ss) == ""
    ensures |ss| > 0 ==> RenderRest(ss) != "" && RenderRest(ss)[0] == ' '
  {
    if |ss| > 0 {
      var blank, rest := " ", Render(ss);
      assert RenderRest(ss) == blank + rest && (blank + rest)[0] == blank[0];
    }
  }

  /** Lexing a rendering from any cursor that reaches it, with or without the
      separating space still ahead. */
  lemma {:induction false} CollectRendered(s: string, st: State, ss: seq<Sym>, lead: nat)
    requires forall k :: 0 <= k < |ss| ==> WellFormed(ss[k])
    requires lead <= 1 && Rest(s, st.pos, if lead == 1 then RenderRest(ss) else Render(ss))
    ensures Syms(Collect(s, st)) == ss + [Sym(EOF, "")]
    decreases |ss|
  {
    hide *;
    if |ss| == 0 {
      NothingRendered();
      AtEnd(s, st, lead);
    } else {
      RenderStep(s, st.pos, ss, lead);
      LexOne(s, st, ss[0], lead);
      CollectStep(s, st, ss[0]);
      CollectRendered(s, Next(s, st).1, ss[1..], 1);
      HeadFirst(ss, Sym(EOF, ""));
    }
  }

  lemma NothingRendered()
    ensures Render([]) == "" && RenderRest([]) == ""
  {
  }

  lemma HeadFirst<T>(s: seq<T>, x: T)
    requires |s| > 0
    ensures [s[0]] + (s[1..] + [x]) == s + [x]
  {
  }

  /** The next token is the one whose text stands after the separating space. */
  lemma LexOne(s: string, st: State, sym: Sym, lead: nat)
    requires WellFormed(sym) && lead <= 1 && (lead == 1 ==> Ch(s, st.pos) == ' ')
    requires Stands(s, st.pos + lead, Text(sym))
    ensures var t := Next(s, st);
            t.0.sym == sym && t.0.sym.typ != EOF && t.1.pos == st.pos + lead + |Text(sym)|
  {
    hide WellFormed, Text, Scan, SkipTrivia, Stands;
    TextStarts(s, st.pos + lead, sym);
    TriviaIs(s, st, lead);
    ScanToken(s, SkipTrivia(s, st), sym);
    KindNotEof(sym);
  }

  lemma CollectStep(s: string, st: State, sym: Sym)
    requires Next(s, st).0.sym == sym && sym.typ != EOF
    ensures Syms(Collect(s, st)) == [sym] + Syms(Collect(s, Next(s, st).1))
  {
    hide Next;
  }

  lemma RenderStep(s: string, i: nat, ss: seq<Sym>, lead: nat)
    requires |ss| > 0 && lead <= 1 && Rest(s, i, if lead == 1 then RenderRest(ss) else Render(ss))
    ensures lead == 1 ==> Ch(s, i) == ' '
    ensures Stands(s, i + lead, Text(ss[0])) && Rest(s, i + lead + |Text(ss[0])|, RenderRest(ss[1..]))
  {
    hide Text, Stands, RenderRest, Rest, Render;
    var t := Text(ss[0]);
    var rest := RenderRest(ss[1..]);
    RenderUnfolds(ss);
    if lead == 1 { SpaceAhead(s, i, t + rest); }
    RestStarts(ss[1..]);
    RestSplit(s, i + lead, t, rest);
  }

  lemma RenderUnfolds(ss: seq<Sym>)
    requires |ss| > 0
    ensures Render(ss) == Text(ss[0]) + RenderRest(ss[1..])
    ensures RenderRest(ss) == " " + (Text(ss[0]) + RenderRest(ss[1..]))
  {
    hide Text;
  }

  lemma SpaceAhead(s: string, i: nat, x: string)
    requires Rest(s, i, " " + x)
    ensures Ch(s, i) == ' ' && Rest(s, i + 1, x)
  {
    assert s[i..][0] == ' ' && s[i..][1..] == x;
    assert s[i + 1..] == s[i..][1..];
  }

  lemma AtEnd(s: string, st: State, lead: nat)
    requires Rest(s, st.pos, "")
    ensures Syms(Collect(s, st)) == [] + [Sym(EOF, "")]
  {
    assert st.pos == |s|;
    TriviaIs(s, st, 0);
    hide SkipTrivia;
    var t := Next(s, st);
    assert t.0.sym == Sym(EOF, "");
    assert Collect(s, st) == [t.0];
  }

  lemma KindNotEof(sym: Sym)
    requires WellFormed(sym)
    ensures sym.typ != EOF
  {
    hide LookupIdent, IsWord, AllDigits, IsDecimal, IsDuration;
    if IsShortOperator(sym) || IsLongOperator(sym) { MarkKind(sym); }
  }

  /** Render then lex: the same kinds and literals, then exactly one EOF. */
  lemma RenderThenLex(ss: seq<Sym>)
    requires forall k :: 0 <= k < |ss| ==> WellFormed(ss[k])
    ensures Syms(Collect(Render(ss), Start())) == ss + [Sym(EOF, "")]
  {
    hide WellFormed, Render;
    assert Render(ss)[0..] == Render(ss);
    CollectRendered(Render(ss), Start(), ss, 0);
  }
}
