/** How operators group, said by the tiers of the language alone.  A chain of terms
    is split at its first assignment, or else at the last of its loosest operators. */
module Grouping {
  import opened Tokens
  import opened Ast
  import opened Grammar
  import opened Printer
  import opened PrattRoundTrip

  /** The binary operators, those that bind loosest first. */
  const TIERS: seq<set<TokenType>> := [
    {SEND_OP, ASSIGN, PLUS_ASSIGN, MINUS_ASSIGN},
    {DOUBLE_QUESTION},
    {OR},
    {AND},
    {EQ, NEQ},
    {LT, GT, LTE, GTE},
    {PLUS, MINUS},
    {STAR, SLASH, PERCENT}
  ]

  const ASSIGNS: set<TokenType> := {ASSIGN, PLUS_ASSIGN, MINUS_ASSIGN}

  predicate InTier(k: nat, t: TokenType) {
    k < |TIERS| && t in TIERS[k]
  }

  function Node(left: Expr, op: Sym, right: Expr): Expr {
    if op.typ in ASSIGNS then Assignment(left, op, right) else InfixOp(left, op, right)
  }

  // ---------- terms ----------

  /** An operand of one token. */
  predicate IsOperand(c: Ctx, s: Sym) {
    s.typ in {IDENT, STRING_LIT, TRUE, FALSE, NIL, SELF, SUPER}
    || (s.typ in {INT_LIT, FLOAT_LIT, DURATION_LIT} && c.valid(s))
  }

  /** What may stand behind an operand: `?`, `.name`, `[x]` and `()`. */
  datatype Tail = Question | Member(name: string) | Element(x: Sym) | Invoked

  function TailTokens(t: Tail): seq<Sym> {
    match t
    case Question => [Sym(QUESTION, "?")]
    case Member(name) => [Sym(DOT, "."), Sym(IDENT, name)]
    case Element(x) => [Sym(LBRACKET, "["), x, Sym(RBRACKET, "]")]
    case Invoked => [Sym(LPAREN, "("), Sym(RPAREN, ")")]
  }

  function TailNode(t: Tail, e: Expr): Expr {
    match t
    case Question => Try(e)
    case Member(name) => FieldAccess(e, name)
    case Element(x) => Index(e, Atom(x))
    case Invoked => Call(e, [])
  }

  /** An operand with prefix operators in front of it and tails behind it. */
  datatype Term = Term(prefixes: seq<Sym>, operand: Sym, tails: seq<Tail>)

  predicate IsTerm(c: Ctx, t: Term) {
    && (forall k :: 0 <= k < |t.prefixes| ==> t.prefixes[k].typ in {BANG, MINUS})
    && IsOperand(c, t.operand)
    && (forall k :: 0 <= k < |t.tails| && t.tails[k].Element? ==> IsOperand(c, t.tails[k].x))
  }

  function TailsTokens(ts: seq<Tail>): seq<Sym> {
    if |ts| == 0 then [] else TailsTokens(ts[..|ts| - 1]) + TailTokens(ts[|ts| - 1])
  }

  function TermTokens(t: Term): seq<Sym> {
    t.prefixes + ([t.operand] + TailsTokens(t.tails))
  }

  /** The tails belong to the operand, the next one innermost ... */
  function TailsNode(ts: seq<Tail>, e: Expr): Expr {
    if |ts| == 0 then e else TailNode(ts[|ts| - 1], TailsNode(ts[..|ts| - 1], e))
  }

  /** ... and the prefixes to all of that. */
  function PrefixesNode(ps: seq<Sym>, e: Expr): Expr {
    if |ps| == 0 then e else PrefixOp(ps[0], PrefixesNode(ps[1..], e))
  }

  function TermNode(t: Term): Expr {
    PrefixesNode(t.prefixes, TailsNode(t.tails, Atom(t.operand)))
  }

  // ---------- chains ----------

  predicate IsChain(c: Ctx, ts: seq<Term>, os: seq<Sym>) {
    && |ts| == |os| + 1
    && (forall k :: 0 <= k < |ts| ==> IsTerm(c, ts[k]))
    && (forall k :: 0 <= k < |os| ==> Tier(os[k]) < |TIERS|)
  }

  function TierFrom(k: nat, t: TokenType): nat
    requires k <= |TIERS|
    decreases |TIERS| - k
  {
    if k == |TIERS| || t in TIERS[k] then k else TierFrom(k + 1, t)
  }

  function Tier(op: Sym): nat {
    TierFrom(0, op.typ)
  }

  function ChainTokens(ts: seq<Term>, os: seq<Sym>): seq<Sym>
    requires |ts| == |os| + 1
  {
    if |os| == 0 then TermTokens(ts[0]) else TermTokens(ts[0]) + ([os[0]] + ChainTokens(ts[1..], os[1..]))
  }

  /** The operator that is applied last. */
  ghost predicate Outermost(os: seq<Sym>, k: nat) {
    k < |os|
    && if os[k].typ in ASSIGNS then forall j :: 0 <= j < k ==> os[j].typ !in ASSIGNS
       else
         && (forall j :: 0 <= j < |os| ==> os[j].typ !in ASSIGNS)
         && (forall j :: 0 <= j < k ==> Tier(os[k]) <= Tier(os[j]))
         && (forall j :: k < j < |os| ==> Tier(os[k]) < Tier(os[j]))
  }

  /** The tree of a chain. */
  ghost predicate Groups(ts: seq<Term>, os: seq<Sym>, e: Expr)
    requires |ts| == |os| + 1
    decreases |os|
  {
    if |os| == 0 then e == TermNode(ts[0])
    else
      exists k: nat, left, right :: Outermost(os, k) && e == Node(left, os[k], right)
        && Groups(ts[..k + 1], os[..k], left) && Groups(ts[k + 1..], os[k + 1..], right)
  }

  // ---------- every chain has a tree ----------

  lemma {:induction false} OutermostExists(os: seq<Sym>) returns (k: nat)
    requires |os| > 0
    ensures Outermost(os, k)
  {
    hide Tier;
    if j: nat :| j < |os| && os[j].typ in ASSIGNS {
      k := FirstAssign(os, j);
    } else {
      k := LastLoosest(os);
    }
  }

  lemma {:induction false} FirstAssign(os: seq<Sym>, j: nat) returns (k: nat)
    requires j < |os| && os[j].typ in ASSIGNS
    ensures k < |os| && os[k].typ in ASSIGNS && forall l :: 0 <= l < k ==> os[l].typ !in ASSIGNS
    decreases j
  {
    if l: nat :| l < j && os[l].typ in ASSIGNS { k := FirstAssign(os, l); } else { k := j; }
  }

  lemma {:induction false} LastLoosest(os: seq<Sym>) returns (k: nat)
    requires |os| > 0
    ensures k < |os| && forall j :: 0 <= j < k ==> Tier(os[k]) <= Tier(os[j])
    ensures forall j :: k < j < |os| ==> Tier(os[k]) < Tier(os[j])
  {
    hide Tier;
    var n := |os| - 1;
    if n == 0 {
      k := 0;
    } else {
      k := LastLoosest(os[..n]);
      assert forall j :: 0 <= j < n ==> os[..n][j] == os[j];
      if Tier(os[n]) <= Tier(os[k]) { k := n; }
    }
  }

  lemma {:induction false} TreeExists(ts: seq<Term>, os: seq<Sym>) returns (e: Expr)
    requires |ts| == |os| + 1
    ensures Groups(ts, os, e)
    decreases |os|
  {
    hide Outermost, TermNode;
    if |os| == 0 {
      e := TermNode(ts[0]);
    } else {
      var k := OutermostExists(os);
      assert k < |os| by { OutermostIn(os, k); }
      var left := TreeExists(ts[..k + 1], os[..k]);
      var right := TreeExists(ts[k + 1..], os[k + 1..]);
      e := Node(left, os[k], right);
    }
  }

  lemma OutermostIn(os: seq<Sym>, k: nat)
    requires Outermost(os, k)
    ensures k < |os|
  {
  }

  // ---------- the parser reads a chain as its tree ----------

  lemma TierIs(op: Sym)
    requires Tier(op) < |TIERS|
    ensures Precedence(op.typ) == SEND_PREC + Tier(op)
    ensures if op.typ in ASSIGNS then IsAssign(op.typ) && Tier(op) == 0 else IsBinary(op.typ)
  {
    assert op.typ in TIERS[Tier(op)] by { TierHolds(0, op.typ); }
  }

  lemma {:induction false} TierHolds(k: nat, t: TokenType)
    requires k <= |TIERS| && TierFrom(k, t) < |TIERS|
    ensures t in TIERS[TierFrom(k, t)]
    decreases |TIERS| - k
  {
    hide TIERS;
    if t !in TIERS[k] { TierHolds(k + 1, t); }
  }

  /** None assigns, and all are in tier `m` or later. */
  predicate AllFrom(os: seq<Sym>, m: nat) {
    forall j :: 0 <= j < |os| ==> os[j].typ !in ASSIGNS && Tier(os[j]) >= m
  }

  /** The tree is printed as the chain, and is as closed on both sides as its
      loosest operator. */
  ghost predicate PrintsAs(c: Ctx, e: Expr, s: seq<Sym>, os: seq<Sym>) {
    && Printable(c, e) && Print(e) == s
    && forall m: nat :: m <= |TIERS| && AllFrom(os, m) ==> RightOpen(e) >= SEND_PREC + m && LeftPrec(e) >= SEND_PREC + m
  }

  lemma {:induction false} TreePrints(c: Ctx, ts: seq<Term>, os: seq<Sym>, e: Expr)
    requires IsChain(c, ts, os) && Groups(ts, os, e)
    ensures PrintsAs(c, e, ChainTokens(ts, os), os)
    decreases |os|
  {
    hide PrintsAs, TermNode, TermTokens, IsTerm, Tier, ChainTokens, Node, TIERS, Outermost;
    if |os| == 0 {
      TermPrints(c, ts[0]);
      ChainOfOne(ts[0], ts, os);
    } else {
      var k, left, right := TreeSplit(ts, os, e);
      TreePrints(c, ts[..k + 1], os[..k], left);
      TreePrints(c, ts[k + 1..], os[k + 1..], right);
      NodePrints(c, os, k, left, ChainTokens(ts[..k + 1], os[..k]), right, ChainTokens(ts[k + 1..], os[k + 1..]));
      ChainSplit(ts, os, k);
    }
  }

  lemma TreeSplit(ts: seq<Term>, os: seq<Sym>, e: Expr) returns (k: nat, left: Expr, right: Expr)
    requires |ts| == |os| + 1 && |os| > 0 && Groups(ts, os, e)
    ensures k < |os| && Outermost(os, k) && e == Node(left, os[k], right)
    ensures Groups(ts[..k + 1], os[..k], left) && Groups(ts[k + 1..], os[k + 1..], right)
  {
    hide Tier, Node;
    k, left, right :| Outermost(os, k) && e == Node(left, os[k], right)
      && Groups(ts[..k + 1], os[..k], left) && Groups(ts[k + 1..], os[k + 1..], right);
  }

  lemma ChainOfOne(t: Term, ts: seq<Term>, os: seq<Sym>)
    requires ts == [t] && os == []
    ensures ChainTokens(ts, os) == TermTokens(t)
  {
  }

  lemma NodePrints(c: Ctx, os: seq<Sym>, k: nat, left: Expr, s: seq<Sym>, right: Expr, t: seq<Sym>)
    requires Outermost(os, k) && forall j :: 0 <= j < |os| ==> Tier(os[j]) < |TIERS|
    requires PrintsAs(c, left, s, os[..k]) && PrintsAs(c, right, t, os[k + 1..])
    ensures PrintsAs(c, Node(left, os[k], right), s + ([os[k]] + t), os)
  {
    hide Tier, Printable, Precedence, IsAssign, IsBinary;
    var op := os[k];
    var m := Tier(op);
    TierIs(op);
    OutermostSides(os, k);
    assert RightOpen(left) >= SEND_PREC + m;
    if op.typ !in ASSIGNS { assert LeftPrec(right) >= SEND_PREC + (m + 1); }
    NodePrint(c, left, op, right);
    hide Outermost, Print, RightOpen, LeftPrec;
    forall l: nat | l <= |TIERS| && AllFrom(os, l)
      ensures RightOpen(Node(left, op, right)) >= SEND_PREC + l && LeftPrec(Node(left, op, right)) >= SEND_PREC + l
    {
      assert op.typ !in ASSIGNS && m >= l;
      OpenSides(left, op, right);
    }
  }

  lemma OutermostSides(os: seq<Sym>, k: nat)
    requires Outermost(os, k)
    ensures k < |os| && AllFrom(os[..k], if os[k].typ in ASSIGNS then 0 else Tier(os[k]))
    ensures os[k].typ !in ASSIGNS ==> AllFrom(os[k + 1..], Tier(os[k]) + 1)
  {
    hide Tier;
  }

  lemma NodePrint(c: Ctx, left: Expr, op: Sym, right: Expr)
    requires Tier(op) < |TIERS| && Printable(c, left) && Printable(c, right)
    requires RightOpen(left) >= SEND_PREC + Tier(op)
    requires op.typ !in ASSIGNS ==> LeftPrec(right) > SEND_PREC + Tier(op)
    ensures Printable(c, Node(left, op, right)) && Print(Node(left, op, right)) == Print(left) + ([op] + Print(right))
  {
    TierIs(op);
    hide Tier, TIERS, IsAssign, IsBinary, Print;
    if op.typ in ASSIGNS { AssignmentPrint(left, op, right); } else { InfixPrint(left, op, right); }
  }

  lemma AssignmentPrint(left: Expr, op: Sym, value: Expr)
    requires RightOpen(left) >= SEND_PREC
    ensures Print(Assignment(left, op, value)) == Print(left) + ([op] + Print(value))
  {
    hide RightOpen, LeftPrec;
    assert Wrap(left, false) == Print(left);
  }

  lemma InfixPrint(left: Expr, op: Sym, right: Expr)
    requires RightOpen(left) >= Precedence(op.typ) && LeftPrec(right) > Precedence(op.typ)
    ensures Print(InfixOp(left, op, right)) == Print(left) + ([op] + Print(right))
  {
    hide RightOpen, LeftPrec, Precedence;
    assert Wrap(left, false) == Print(left) && Wrap(right, false) == Print(right);
  }

  lemma OpenSides(left: Expr, op: Sym, right: Expr)
    requires Tier(op) < |TIERS| && op.typ !in ASSIGNS
    ensures RightOpen(Node(left, op, right)) == LeftPrec(Node(left, op, right)) == SEND_PREC + Tier(op)
  {
    TierIs(op);
    hide Tier, Precedence, IsAssign, IsBinary, TIERS;
  }

  lemma {:induction false} ChainSplit(ts: seq<Term>, os: seq<Sym>, k: nat)
    requires |ts| == |os| + 1 && k < |os|
    ensures ChainTokens(ts, os)
            == ChainTokens(ts[..k + 1], os[..k]) + ([os[k]] + ChainTokens(ts[k + 1..], os[k + 1..]))
    decreases k
  {
    hide TermTokens;
    if k == 0 {
      ChainOfOne(ts[0], ts[..1], os[..0]);
    } else {
      ChainSplit(ts[1..], os[1..], k - 1);
      assert ts[1..][..k] == ts[..k + 1][1..] && os[1..][..k - 1] == os[..k][1..];
      assert ts[1..][k..] == ts[k + 1..] && os[1..][k..] == os[k + 1..];
      var l, r := ChainTokens(ts[1..][..k], os[1..][..k - 1]), ChainTokens(ts[k + 1..], os[k + 1..]);
      assert ChainTokens(ts[..k + 1], os[..k]) == TermTokens(ts[0]) + ([os[0]] + l);
      Regroup(TermTokens(ts[0]), [os[0]], l, [os[k]] + r);
    }
  }

  lemma Regroup(a: seq<Sym>, b: seq<Sym>, l: seq<Sym>, r: seq<Sym>)
    ensures a + (b + (l + r)) == (a + (b + l)) + r
  {
  }

  // ---------- terms are printed as they stand ----------

  lemma {:induction false} TailsPrint(c: Ctx, a: Sym, ts: seq<Tail>)
    requires IsTerm(c, Term([], a, ts))
    ensures var e := TailsNode(ts, Atom(a));
            && Printable(c, e) && Print(e) == [a] + TailsTokens(ts)
            && RightOpen(e) == CLOSED && LeftPrec(e) >= POSTFIX
    decreases |ts|
  {
    hide TailNode, TailTokens, Printable, Print, RightOpen, LeftPrec, IsOperand;
    if |ts| == 0 {
      OperandPrints(c, a);
      assert [a] + TailsTokens(ts) == [a];
    } else {
      var m := |ts| - 1;
      TailsPrint(c, a, ts[..m]);
      TailPrints(c, TailsNode(ts[..m], Atom(a)), ts[m]);
      var s, t := TailsTokens(ts[..m]), TailTokens(ts[m]);
      assert ([a] + s) + t == [a] + (s + t);
    }
  }

  lemma OperandPrints(c: Ctx, a: Sym)
    requires IsOperand(c, a)
    ensures Printable(c, Atom(a)) && Print(Atom(a)) == [a] && RightOpen(Atom(a)) == LeftPrec(Atom(a)) == CLOSED
  {
  }

  /** One tail printed behind an operand. */
  predicate TailPrinted(c: Ctx, e: Expr, t: Tail) {
    && Printable(c, TailNode(t, e)) && Print(TailNode(t, e)) == Print(e) + TailTokens(t)
    && RightOpen(TailNode(t, e)) == CLOSED && LeftPrec(TailNode(t, e)) >= POSTFIX
  }

  lemma TailPrints(c: Ctx, e: Expr, t: Tail)
    requires Printable(c, e) && RightOpen(e) == CLOSED && (t.Element? ==> IsOperand(c, t.x))
    ensures TailPrinted(c, e, t)
  {
    hide TailPrinted, IsOperand, Printable, Print, RightOpen;
    match t
    case Element(x) => ElementPrints(c, e, x);
    case Member(name) => MemberPrints(c, e, name);
    case Invoked => InvokedPrints(c, e);
    case Question => QuestionPrints(c, e);
  }

  lemma ElementPrints(c: Ctx, e: Expr, x: Sym)
    requires Printable(c, e) && RightOpen(e) == CLOSED && IsOperand(c, x)
    ensures TailPrinted(c, e, Element(x))
  {
    OperandPrints(c, x);
    hide IsOperand, Print;
    IndexPrint(e, Atom(x));
    assert [OPEN_BRACKET] + ([x] + [CLOSE_BRACKET]) == TailTokens(Element(x));
  }

  lemma IndexPrint(e: Expr, x: Expr)
    requires RightOpen(e) == CLOSED
    ensures Print(Index(e, x)) == Print(e) + ([OPEN_BRACKET] + (Print(x) + [CLOSE_BRACKET]))
  {
    hide RightOpen;
    assert Wrap(e, false) == Print(e);
  }

  lemma MemberPrints(c: Ctx, e: Expr, name: string)
    requires Printable(c, e) && RightOpen(e) == CLOSED
    ensures TailPrinted(c, e, Member(name))
  {
    assert Wrap(e, false) == Print(e);
    assert [DOT_SYM] + [Sym(IDENT, name)] == TailTokens(Member(name));
  }

  lemma InvokedPrints(c: Ctx, e: Expr)
    requires Printable(c, e) && RightOpen(e) == CLOSED
    ensures TailPrinted(c, e, Invoked)
  {
    assert Wrap(e, false) == Print(e);
    assert PrintArgs([]) == [];
    assert [OPEN_PAREN] + ([] + [CLOSE_PAREN]) == TailTokens(Invoked);
  }

  lemma QuestionPrints(c: Ctx, e: Expr)
    requires Printable(c, e) && RightOpen(e) == CLOSED
    ensures TailPrinted(c, e, Question)
  {
    assert Wrap(e, false) == Print(e);
  }

  lemma {:induction false} PrefixesPrint(c: Ctx, ps: seq<Sym>, e: Expr)
    requires forall k :: 0 <= k < |ps| ==> ps[k].typ in {BANG, MINUS}
    requires Printable(c, e) && RightOpen(e) >= PREFIX && LeftPrec(e) >= POSTFIX
    ensures var n := PrefixesNode(ps, e);
            Printable(c, n) && Print(n) == ps + Print(e) && RightOpen(n) >= PREFIX && LeftPrec(n) >= POSTFIX
    decreases |ps|
  {
    hide Printable, Print, RightOpen, LeftPrec;
    if |ps| == 0 {
      assert ps + Print(e) == Print(e);
    } else {
      var n := PrefixesNode(ps[1..], e);
      PrefixesPrint(c, ps[1..], e);
      PrefixPrints(c, ps[0], n);
      assert [ps[0]] + (ps[1..] + Print(e)) == ps + Print(e);
    }
  }

  lemma PrefixPrints(c: Ctx, op: Sym, e: Expr)
    requires op.typ in {BANG, MINUS} && Printable(c, e) && LeftPrec(e) >= POSTFIX
    ensures var n := PrefixOp(op, e);
            Printable(c, n) && Print(n) == [op] + Print(e) && RightOpen(n) == PREFIX && LeftPrec(n) == CLOSED
  {
    assert Wrap(e, false) == Print(e);
  }

  lemma TermPrints(c: Ctx, t: Term)
    requires IsTerm(c, t)
    ensures PrintsAs(c, TermNode(t), TermTokens(t), [])
  {
    hide Printable, Print, RightOpen, LeftPrec, IsOperand, TailsNode, TailsTokens, PrefixesNode, TIERS;
    TailsPrint(c, t.operand, t.tails);
    PrefixesPrint(c, t.prefixes, TailsNode(t.tails, Atom(t.operand)));
    assert |TIERS| == 8 by { TierCount(); }
  }

  lemma TierCount()
    ensures |TIERS| == 8
  {
  }

  // ---------- the theorem ----------

  /** Any chain of terms up to the end of a statement is parsed to its tree: split at
      the first assignment, or else at the last operator of the loosest tier there
      is, prefixes outside tails.  There is such a tree, and no other. */
  lemma ChainParses(c: Ctx, i: nat, ts: seq<Term>, os: seq<Sym>) returns (e: Expr)
    requires IsChain(c, ts, os) && At(c, i, ChainTokens(ts, os))
    requires Cur(c, i + |ChainTokens(ts, os)|) == SEMICOLON || Cur(c, i + |ChainTokens(ts, os)|) == EOF
    ensures |ChainTokens(ts, os)| > 0
    ensures ParseExpression(c, i, LOWEST) == R(e, i + |ChainTokens(ts, os)| - 1, [])
    ensures forall t :: Groups(ts, os, t) <==> t == e
  {
    hide ParseExpression, Print, Printable, At, IsChain, Groups, ChainTokens;
    ChainSize(c, ts, os);
    e := TreeExists(ts, os);
    forall t | Groups(ts, os, t) ensures Print(t) == ChainTokens(ts, os) && Printable(c, t) {
      TreePrints(c, ts, os, t);
    }
    PrintThenParse(c, i, e);
    forall t | Groups(ts, os, t) ensures t == e {
      PrintThenParse(c, i, t);
    }
  }

  lemma ChainSize(c: Ctx, ts: seq<Term>, os: seq<Sym>)
    requires IsChain(c, ts, os)
    ensures |ts| == |os| + 1
  {
  }

  /** The operand between two operators goes to the second one exactly when that is
      in a later tier, or the first one assigns. */
  lemma BetweenTwo(c: Ctx, i: nat, a: Term, o: Sym, b: Term, q: Sym, d: Term, m: nat, n: nat)
    requires IsTerm(c, a) && IsTerm(c, b) && IsTerm(c, d) && InTier(m, o.typ) && InTier(n, q.typ)
    requires var s := TermTokens(a) + ([o] + (TermTokens(b) + ([q] + TermTokens(d))));
             At(c, i, s) && (Cur(c, i + |s|) == SEMICOLON || Cur(c, i + |s|) == EOF)
    ensures var s := TermTokens(a) + ([o] + (TermTokens(b) + ([q] + TermTokens(d))));
            ParseExpression(c, i, LOWEST)
            == R(if n > m || o.typ in ASSIGNS then Node(TermNode(a), o, Node(TermNode(b), q, TermNode(d)))
                 else Node(Node(TermNode(a), o, TermNode(b)), q, TermNode(d)), i + |s| - 1, [])
  {
    hide ParseExpression, TermTokens, TermNode, IsTerm, At, Node, Outermost, InTier;
    var ts, os := [a, b, d], [o, q];
    TierOf(m, o);
    TierOf(n, q);
    ThreeTerms(a, o, b, q, d);
    assert IsChain(c, ts, os);
    assert ts[..2] == [a, b] && ts[1..] == [b, d] && ts[..1] == [a] && ts[2..] == [d];
    assert os[..1] == [o] && os[1..] == [q] && os[..0] == [] && os[2..] == [];
    var e := ChainParses(c, i, ts, os);
    if n > m || o.typ in ASSIGNS {
      assert Outermost(os, 0) by { TwoOutermost(o, q); }
      PairGroups(b, q, d);
      GroupsAt(ts, os, 0, TermNode(a), Node(TermNode(b), q, TermNode(d)));
    } else {
      assert Outermost(os, 1) by { TwoOutermost(o, q); }
      PairGroups(a, o, b);
      GroupsAt(ts, os, 1, Node(TermNode(a), o, TermNode(b)), TermNode(d));
    }
  }

  lemma {:induction false} TierOf(k: nat, op: Sym)
    requires InTier(k, op.typ)
    ensures Tier(op) == k < |TIERS|
  {
  }

  lemma ThreeTerms(a: Term, o: Sym, b: Term, q: Sym, d: Term)
    ensures ChainTokens([a, b, d], [o, q]) == TermTokens(a) + ([o] + (TermTokens(b) + ([q] + TermTokens(d))))
  {
    hide TermTokens;
    assert [a, b, d][1..] == [b, d] && [o, q][1..] == [q];
    assert [b, d][1..] == [d] && [q][1..] == [];
    assert ChainTokens([b, d], [q]) == TermTokens(b) + ([q] + ChainTokens([d], []));
  }

  lemma TwoOutermost(o: Sym, q: Sym)
    requires Tier(o) < |TIERS| && Tier(q) < |TIERS|
    ensures Outermost([o, q], if Tier(q) > Tier(o) || o.typ in ASSIGNS then 0 else 1)
  {
    TierIs(o);
    TierIs(q);
    hide Tier, TIERS, Precedence, IsAssign, IsBinary;
  }

  lemma PairGroups(a: Term, o: Sym, b: Term)
    ensures Groups([a, b], [o], Node(TermNode(a), o, TermNode(b)))
  {
    hide TermNode, Node;
    assert Outermost([o], 0);
    GroupsAt([a, b], [o], 0, TermNode(a), TermNode(b));
  }

  lemma GroupsAt(ts: seq<Term>, os: seq<Sym>, k: nat, left: Expr, right: Expr)
    requires |ts| == |os| + 1 && Outermost(os, k) && k < |os|
    requires Groups(ts[..k + 1], os[..k], left) && Groups(ts[k + 1..], os[k + 1..], right)
    ensures Groups(ts, os, Node(left, os[k], right))
  {
  }
}
