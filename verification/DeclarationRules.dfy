/** The concrete syntax of declarations: which members are read as which parts. */
module DeclarationRules {
  import opened Options
  import opened Tokens
  import opened Ast
  import opened Grammar
  import opened GrammarRules

  /** Members of a declaration of this kind stand at `i`, up to the closing brace. */
  predicate ReadsMembers(c: Ctx, i: nat, t: TokenType, parts: seq<Part>, j: nat) {
    Members(c, i, t) == R(Some(parts), j, [])
  }

  /** One member, that ends with token `j`. */
  predicate ReadsMember(c: Ctx, i: nat, t: TokenType, parts: seq<Part>, j: nat) {
    i < |c.toks| && Member(c, i, t) == R(Go(parts), j, [])
  }

  /** `kind Name { members }` */
  lemma DeclarationForm(c: Ctx, i: nat, t: TokenType, parts: seq<Part>, j: nat)
    requires t in {OBJECT, ENUM, ACTOR, PIPELINE, TOOL, AGENT, MCP, SERVICE, PROTOCOL, EFFECT}
    requires Cur(c, i) == t && Cur(c, i + 1) == IDENT && Cur(c, i + 2) == LBRACE && ReadsMembers(c, i + 3, t, parts, j)
    ensures ParseStatement(c, i) == R(Decl(t, Lit(c, i + 1), parts), j, [])
  {
    hide Members;
    assert DeclBody(c, i + 1, t, Lit(c, i + 1), []) == R(Decl(t, Lit(c, i + 1), [] + parts), j, []);
    assert [] + parts == parts;
    hide DeclBody;
    assert ParseDecl(c, i) == R(Decl(t, Lit(c, i + 1), parts), j, []);
    hide ParseDecl, ParseExpressionStatement, ParseFnDecl, ParseLet, ParseMut, ParseReturn;
  }

  /** `impl Protocol for Name { functions }` */
  lemma ImplForm(c: Ctx, i: nat, parts: seq<Part>, j: nat)
    requires Cur(c, i) == IMPL && Cur(c, i + 1) == IDENT && Cur(c, i + 2) == FOR && Cur(c, i + 3) == IDENT
    requires Cur(c, i + 4) == LBRACE && ReadsMembers(c, i + 5, IMPL, parts, j)
    ensures ParseStatement(c, i) == R(Decl(IMPL, Lit(c, i + 3), [Text("protocol", Lit(c, i + 1))] + parts), j, [])
  {
    hide Members;
    var first := [Text("protocol", Lit(c, i + 1))];
    assert DeclBody(c, i + 3, IMPL, Lit(c, i + 3), first) == R(Decl(IMPL, Lit(c, i + 3), first + parts), j, []);
    hide DeclBody;
    assert ParseDecl(c, i) == R(Decl(IMPL, Lit(c, i + 3), first + parts), j, []);
    hide ParseDecl, ParseExpressionStatement, ParseFnDecl, ParseLet, ParseMut, ParseReturn;
  }

  /** Members end at the closing brace; else there is one more in front. */
  lemma MemberLists(c: Ctx, i: nat, t: TokenType, parts: seq<Part>, j: nat, rest: seq<Part>, k: nat)
    ensures Cur(c, i) == RBRACE ==> ReadsMembers(c, i, t, [], i)
    ensures Cur(c, i) != RBRACE && Cur(c, i) != EOF && ReadsMember(c, i, t, parts, j)
            && ReadsMembers(c, j + 1, t, rest, k)
            ==> ReadsMembers(c, i, t, parts + rest, k)
  {
    hide Member;
  }

  function AfterComma(c: Ctx, j: nat): nat {
    if Cur(c, j + 1) == COMMA then j + 1 else j
  }

  /** `name: type`, with `= default` behind it or without, and a comma or none. */
  lemma FieldForm(c: Ctx, i: nat, ty: string, j: nat, d: Option<Expr>, k: nat)
    requires Cur(c, i) != EOF && Cur(c, i) != DELEGATE && Cur(c, i + 1) == COLON
             && ParseTypeExpr(c, i + 2) == R(ty, j, [])
    requires if d.Some? then Cur(c, j + 1) == ASSIGN && Reads(c, j + 2, d.value, k)
             else Cur(c, j + 1) != ASSIGN && k == j
    requires Cur(c, k + 1) != AT
    ensures ReadsMember(c, i, OBJECT, [Field(Lit(c, i), ty, d, None)], AfterComma(c, k))
  {
    hide ParseTypeExpr, ParseExpression;
    assert DefaultValue(c, j) == R(d, k, []);
    assert ParseAnnotation(c, k) == R(None, k, []);
    hide DefaultValue, ParseAnnotation;
    assert FieldMember(c, i) == R(Some(Field(Lit(c, i), ty, d, None)), AfterComma(c, k), []);
    hide FieldMember;
    assert ObjectMember(c, i) == R(Go([Field(Lit(c, i), ty, d, None)]), AfterComma(c, k), []);
    hide ObjectMember;
  }

  /** `delegate name: type` */
  lemma DelegateForm(c: Ctx, i: nat, ty: string, j: nat)
    requires Cur(c, i) == DELEGATE && Cur(c, i + 1) == IDENT && Cur(c, i + 2) == COLON
    requires ParseTypeExpr(c, i + 3) == R(ty, j, [])
    ensures ReadsMember(c, i, OBJECT, [Delegate(Lit(c, i + 1), ty)], AfterComma(c, j))
  {
    hide ParseTypeExpr, FieldMember;
    assert ObjectMember(c, i) == R(Go([Delegate(Lit(c, i + 1), ty)]), AfterComma(c, j), []);
    hide ObjectMember;
  }

  /** `Variant` and `Variant(payload)` */
  lemma VariantForms(c: Ctx, i: nat, fs: seq<(string, string)>, j: nat)
    requires Cur(c, i) != EOF
    ensures Cur(c, i + 1) != LPAREN ==> ReadsMember(c, i, ENUM, [Variant(Lit(c, i), [])], AfterComma(c, i))
    ensures Cur(c, i + 1) == LPAREN && VariantFields(c, i + 2) == R(fs, j, []) ==>
              ReadsMember(c, i, ENUM, [Variant(Lit(c, i), fs)], AfterComma(c, j))
  {
    hide VariantFields;
    assert Cur(c, i + 1) != LPAREN ==> VariantMember(c, i) == R(Go([Variant(Lit(c, i), [])]), AfterComma(c, i), []);
    assert Cur(c, i + 1) == LPAREN && VariantFields(c, i + 2) == R(fs, j, []) ==>
             VariantMember(c, i) == R(Go([Variant(Lit(c, i), fs)]), AfterComma(c, j), []);
    hide VariantMember;
  }

  /** A payload ends at the parenthesis; else there is one more `name: type`. */
  lemma PayloadLists(c: Ctx, i: nat, ty: string, j: nat, rest: seq<(string, string)>, k: nat)
    ensures Cur(c, i) == RPAREN ==> VariantFields(c, i) == R([], i, [])
    ensures Cur(c, i) != RPAREN && Cur(c, i) != EOF && Cur(c, i + 1) == COLON && ParseTypeExpr(c, i + 2) == R(ty, j, [])
            && VariantFields(c, AfterComma(c, j) + 1) == R(rest, k, [])
            ==> VariantFields(c, i) == R([(Lit(c, i), ty)] + rest, k, [])
  {
    hide ParseTypeExpr;
  }

  /** `state name: type = value`, and `receive Message(params) -> type { ... }` */
  lemma StateForm(c: Ctx, i: nat, ty: string, j: nat, e: Expr, k: nat)
    requires IsWordAt(c, i, "state") && Cur(c, i + 2) == COLON && ParseTypeExpr(c, i + 3) == R(ty, j, [])
    requires Cur(c, j + 1) == ASSIGN && Reads(c, j + 2, e, k)
    ensures ReadsMember(c, i, ACTOR, [State(Lit(c, i + 1), ty, Some(e))], k)
  {
    hide ParseTypeExpr, ParseExpression;
    assert OptionalType(c, i + 1, COLON) == R(ty, j, []) && DefaultValue(c, j) == R(Some(e), k, []);
    hide OptionalType, DefaultValue;
    assert ActorMember(c, i) == R(Go([State(Lit(c, i + 1), ty, Some(e))]), k, []);
    hide ActorMember;
  }

  lemma ReceiveForm(c: Ctx, i: nat, ps: seq<Param>, j: nat, ty: string, k: nat, body: seq<Stmt>, m: nat)
    requires Cur(c, i) == RECEIVE && i + 1 < |c.toks|
    requires if Cur(c, i + 2) == LPAREN then ReadsParams(c, i + 2, ps, j) else ps == [] && j == i + 1
    requires if Cur(c, j + 1) == ARROW then ParseTypeExpr(c, j + 2) == R(ty, k, []) else ty == "" && k == j
    requires Cur(c, k + 1) == LBRACE && ReadsBlock(c, k + 2, body, m)
    ensures ReadsMember(c, i, ACTOR, [Receive(Lit(c, i + 1), ps, ty, Some(body))], m)
  {
    hide ParseTypeExpr, ParseFnParams, Statements;
    assert OptionalParams(c, i + 1) == R(ps, j, []);
    assert OptionalType(c, j, ARROW) == R(ty, k, []);
    assert BlockBody(c, k + 1) == R(body, m, []);
    hide OptionalParams, OptionalType, BlockBody;
    assert ReceiveBlock(c, i) == R(Receive(Lit(c, i + 1), ps, ty, Some(body)), m, []);
    hide ReceiveBlock;
    assert ActorMember(c, i) == R(Go([Receive(Lit(c, i + 1), ps, ty, Some(body))]), m, []);
    hide ActorMember;
  }

  /** `source: e`, `transform: e`, `sink: e` and `partition: e` */
  lemma StageForm(c: Ctx, i: nat, e: Expr, j: nat)
    requires Cur(c, i) in {SOURCE, TRANSFORM, SINK, PARTITION} && Cur(c, i + 1) == COLON && Reads(c, i + 2, e, j)
    ensures var kind := if Cur(c, i) == SOURCE then "source" else if Cur(c, i) == TRANSFORM then "transform"
                        else if Cur(c, i) == SINK then "sink" else "partition";
            ReadsMember(c, i, PIPELINE, [Stage(kind, e)], j)
  {
    hide ParseExpression;
    assert StageMember(c, i) == R(Go([Stage(StageKind(SymAt(c, i)).value, e)]), j, []);
    hide StageMember;
  }

  /** The functions of an `impl`, and of a tool. */
  lemma FunctionMembers(c: Ctx, i: nat, t: TokenType, f: Stmt, j: nat)
    requires (t == IMPL || t == TOOL) && Cur(c, i) == FN && ParseFnDecl(c, i) == R(f, j, [])
    ensures ReadsMember(c, i, t, [Function(f)], j)
  {
    hide ParseFnDecl;
    assert FnMember(c, i) == R(Go([Function(f)]), j, []);
    hide FnMember;
    assert t == IMPL ==> ImplMember(c, i) == FnMember(c, i);
    assert t == TOOL ==> ToolMember(c, i) == FnMember(c, i);
    hide ImplMember, ToolMember;
  }

  /** An operation of an effect: `name(params) -> type` */
  lemma OperationForm(c: Ctx, i: nat, ps: seq<Param>, j: nat, ty: string, k: nat)
    requires Cur(c, i) == IDENT
    requires if Cur(c, i + 1) == LPAREN then ReadsParams(c, i + 1, ps, j) else ps == [] && j == i
    requires if Cur(c, j + 1) == ARROW then ParseTypeExpr(c, j + 2) == R(ty, k, []) else ty == "" && k == j
    ensures ReadsMember(c, i, EFFECT, [Operation(Lit(c, i), ps, ty, [])], k)
  {
    hide ParseTypeExpr, ParseFnParams;
    assert OptionalParams(c, i) == R(ps, j, []);
    assert OptionalType(c, j, ARROW) == R(ty, k, []);
    hide OptionalParams, OptionalType;
    assert OperationMember(c, i) == R(Go([Operation(Lit(c, i), ps, ty, [])]), k, []);
    hide OperationMember;
  }

  /** `VERB "pattern" -> name` */
  lemma RouteForm(c: Ctx, i: nat)
    requires Cur(c, i) == IDENT && Lit(c, i) in {"GET", "POST", "PUT", "PATCH", "DELETE", "HEAD", "OPTIONS"}
    requires Cur(c, i + 1) == STRING_LIT && Cur(c, i + 2) == ARROW && Cur(c, i + 3) == IDENT
    ensures ReadsMember(c, i, SERVICE, [Route(Lit(c, i), Lit(c, i + 1), Lit(c, i + 3), None)], i + 3)
  {
    assert RouteMember(c, i) == R(Go([Route(Lit(c, i), Lit(c, i + 1), Lit(c, i + 3), None)]), i + 3, []) by {
      hide InlineHandler;
    }
    hide RouteMember;
    assert ServiceMember(c, i) == RouteMember(c, i);
    hide ServiceMember;
  }

  /** `type Name = type`, `import "path"`, `import "path" as name` and
      `import { names } from "path"` */
  lemma AliasAndImportForms(c: Ctx, i: nat, ty: string, ns: seq<string>, j: nat)
    ensures Cur(c, i) == TYPE && Cur(c, i + 1) == IDENT && Cur(c, i + 2) == ASSIGN
            && ParseTypeExpr(c, i + 3) == R(ty, j, [])
            ==> ParseStatement(c, i) == R(TypeAlias(Lit(c, i + 1), ty), j, [])
    ensures Cur(c, i) == IMPORT && Cur(c, i + 1) == STRING_LIT && !IsWordAt(c, i + 2, "as") ==>
              ParseStatement(c, i) == R(Import(Lit(c, i + 1), "", []), i + 1, [])
    ensures Cur(c, i) == IMPORT && Cur(c, i + 1) == STRING_LIT && IsWordAt(c, i + 2, "as") && Cur(c, i + 3) == IDENT ==>
              ParseStatement(c, i) == R(Import(Lit(c, i + 1), Lit(c, i + 3), []), i + 3, [])
    ensures Cur(c, i) == IMPORT && Cur(c, i + 1) == LBRACE && NamesUntil(c, i + 2, RBRACE) == R(ns, j, [])
            && IsWordAt(c, j + 1, "from") && Cur(c, j + 2) == STRING_LIT
            ==> ParseStatement(c, i) == R(Import(Lit(c, j + 2), "", ns), j + 2, [])
  {
    hide ParseTypeExpr, NamesUntil;
    assert Cur(c, i) in {TYPE, IMPORT} ==> ParseStatement(c, i) == ParseDecl(c, i) by {
      hide ParseDecl;
    }
    hide ParseStatement;
    assert Cur(c, i) == TYPE ==> ParseDecl(c, i) == ParseTypeAlias(c, i);
    assert Cur(c, i) == IMPORT ==> ParseDecl(c, i) == ParseImport(c, i);
    hide ParseDecl;
  }
}
