/** How the loops of the parser object follow the recursive definitions in
    `Grammar`: what has been read so far joined to what the definition says of
    the rest stays the same from turn to turn. */
module ParserLoops {
  import opened Options
  import opened Tokens
  import opened Ast
  import opened Grammar

  /** A result reached with errors already recorded. */
  ghost function After<T>(errors: seq<Error>, r: R<T>): R<T> {
    R(r.v, r.at, errors + r.errs)
  }

  lemma ErrorsJoin(errors: seq<Error>, a: seq<Error>, b: seq<Error>, c: seq<Error>)
    ensures errors + (a + b + c) == ((errors + a) + b) + c
  {
  }

  lemma AfterBoth<S, T>(errors: seq<Error>, a: R<S>, b: R<T>)
    ensures After(errors, R(b.v, b.at, a.errs + b.errs)) == After(errors + a.errs, b)
  {
    assert errors + (a.errs + b.errs) == (errors + a.errs) + b.errs;
  }

  /** The same for a list already begun. */
  ghost function AfterMany<T>(xs: seq<T>, errors: seq<Error>, r: R<seq<T>>): R<seq<T>> {
    R(xs + r.v, r.at, errors + r.errs)
  }

  lemma AfterManySteps<T>(xs: seq<T>, errors: seq<Error>, ys: seq<T>, errs: seq<Error>, rest: R<seq<T>>)
    ensures AfterMany(xs, errors, R(ys + rest.v, rest.at, errs + rest.errs)) == AfterMany(xs + ys, errors + errs, rest)
    ensures ys == [] ==> xs + ys == xs
  {
    assert xs + (ys + rest.v) == (xs + ys) + rest.v;
    assert errors + (errs + rest.errs) == (errors + errs) + rest.errs;
  }

  lemma AfterManyStep<T>(xs: seq<T>, errors: seq<Error>, y: T, errs: seq<Error>, rest: R<seq<T>>)
    ensures AfterMany(xs, errors, R([y] + rest.v, rest.at, errs + rest.errs))
            == AfterMany(xs + [y], errors + errs, rest)
  {
    AfterManySteps(xs, errors, [y], errs, rest);
  }

  lemma AfterManyEnd<T>(xs: seq<T>, errors: seq<Error>, i: nat)
    ensures AfterMany(xs, errors, R([], i, [])) == R(xs, i, errors)
  {
    assert xs + [] == xs && errors + [] == errors;
  }

  lemma AfterManyQuiet<T>(xs: seq<T>, errors: seq<Error>, y: T, rest: R<seq<T>>)
    requires rest.errs == []
    ensures AfterMany(xs, errors, R([y] + rest.v, rest.at, [])) == AfterMany(xs + [y], errors, rest)
  {
    assert xs + ([y] + rest.v) == (xs + [y]) + rest.v;
  }

  lemma AfterManyCut<T>(xs: seq<T>, errors: seq<Error>, i: nat, errs: seq<Error>)
    ensures AfterMany(xs, errors, R([], i, errs)) == R(xs, i, errors + errs)
  {
    assert xs + [] == xs;
  }

  lemma AfterManyLast<T>(xs: seq<T>, errors: seq<Error>, y: R<T>)
    ensures AfterMany(xs, errors, R([y.v], y.at, y.errs)) == R(xs + [y.v], y.at, errors + y.errs)
  {
  }

  lemma AfterNothing<T>(errors: seq<Error>, v: T, i: nat)
    ensures After(errors, R(v, i, [])) == R(v, i, errors)
  {
    assert errors + [] == errors;
  }

  lemma AfterManyNone<T>(errors: seq<Error>, r: R<seq<T>>)
    ensures AfterMany([], errors, r) == After(errors, r)
  {
    assert [] + r.v == r.v;
  }

  /** The same for a list that may be given up. */
  ghost function AfterSome<T>(xs: seq<T>, errors: seq<Error>, r: R<Option<seq<T>>>): R<Option<seq<T>>> {
    R(if r.v.Some? then Some(xs + r.v.value) else None, r.at, errors + r.errs)
  }

  lemma AfterSomeStep<T>(xs: seq<T>, errors: seq<Error>, ys: seq<T>, errs: seq<Error>, rest: R<Option<seq<T>>>)
    ensures AfterSome(xs, errors, R(if rest.v.Some? then Some(ys + rest.v.value) else None, rest.at, errs + rest.errs))
            == AfterSome(xs + ys, errors + errs, rest)
  {
    assert rest.v.Some? ==> xs + (ys + rest.v.value) == (xs + ys) + rest.v.value;
    assert errors + (errs + rest.errs) == (errors + errs) + rest.errs;
  }

  lemma AfterSomeEnd<T>(xs: seq<T>, errors: seq<Error>, ys: seq<T>, i: nat, errs: seq<Error>)
    ensures AfterSome(xs, errors, R(Some(ys), i, errs)) == R(Some(xs + ys), i, errors + errs)
    ensures ys == [] ==> xs + ys == xs
    ensures errs == [] ==> errors + errs == errors
  {
  }

  lemma AfterSomeGivesUp<T>(xs: seq<T>, errors: seq<Error>, i: nat, errs: seq<Error>)
    ensures AfterSome(xs, errors, R(None, i, errs)) == R(None, i, errors + errs)
  {
  }

  lemma AfterSomeNone<T>(errors: seq<Error>, r: R<Option<seq<T>>>)
    ensures AfterSome([], errors, r) == After(errors, r)
  {
    assert r.v.Some? ==> [] + r.v.value == r.v.value;
  }

  // ---------- one turn of each loop ----------

  lemma LoopUnfolds(c: Ctx, i: nat, p: nat, left: Expr)
    ensures StopsLoop(Cur(c, i + 1), p) || !HasInfixFn(Cur(c, i + 1)) ==> InfixLoop(c, i, p, left) == R(left, i, [])
    ensures !StopsLoop(Cur(c, i + 1), p) && HasInfixFn(Cur(c, i + 1)) ==>
              i + 1 < |c.toks| &&
              var a := Grammar.ParseInfix(c, i + 1, left);
              var b := InfixLoop(c, a.at, p, a.v);
              InfixLoop(c, i, p, left) == R(b.v, b.at, a.errs + b.errs)
  {
    hide Grammar.ParseInfix, Grammar.ParseExpression, Grammar.ParsePrefix;
  }

  lemma MoreUnfolds(c: Ctx, i: nat, end: TokenType)
    ensures Cur(c, i + 1) != COMMA ==> MoreExpressions(c, i, end) == R([], i, [])
    ensures Cur(c, i + 1) == COMMA && Cur(c, i + 2) == end ==> MoreExpressions(c, i, end) == R([], i + 1, [])
    ensures Cur(c, i + 1) == COMMA && Cur(c, i + 2) != end ==>
              i + 1 < |c.toks| &&
              var a := Grammar.ParseExpression(c, i + 2, LOWEST);
              var rest := MoreExpressions(c, a.at, end);
              MoreExpressions(c, i, end) == R([a.v] + rest.v, rest.at, a.errs + rest.errs)
  {
    hide Grammar.ParseExpression;
  }

  /** One argument of a list. */
  function OneArg(c: Ctx, i: nat): (r: R<Arg>)
    ensures r.at >= i
  {
    var named := Cur(c, i) == IDENT && Cur(c, i + 1) == COLON;
    var a := Grammar.ParseExpression(c, if named then i + 2 else i, LOWEST);
    R(Arg(if named then Lit(c, i) else "", a.v), a.at, a.errs)
  }

  lemma ArgsUnfold(c: Ctx, i: nat)
    ensures var a := OneArg(c, i);
            && (Cur(c, a.at + 1) != COMMA ==> Args(c, i) == R([a.v], a.at, a.errs))
            && (Cur(c, a.at + 1) == COMMA ==>
                  a.at + 1 < |c.toks| &&
                  var rest := Args(c, a.at + 2);
                  Args(c, i) == R([a.v] + rest.v, rest.at, a.errs + rest.errs))
  {
    hide Grammar.ParseExpression;
  }

  lemma StatementsUnfold(c: Ctx, i: nat)
    ensures Cur(c, i) == EOF ==> Statements(c, i, EOF) == R([], i, [])
    ensures Cur(c, i) != EOF ==>
              i < |c.toks| &&
              var s := Grammar.ParseStatement(c, i);
              var rest := Statements(c, s.at + 1, EOF);
              Statements(c, i, EOF) == R((if s.v == NoStmt then [] else [s.v]) + rest.v, rest.at, s.errs + rest.errs)
  {
    hide Grammar.ParseStatement;
  }

  lemma ObjectFieldsStep(xs: seq<Arg>, errors: seq<Error>, c: Ctx, i: nat)
    ensures Cur(c, i + 1) == RBRACE || Cur(c, i + 1) == EOF ==>
              AfterSome(xs, errors, ObjectFields(c, i)) == R(Some(xs), i + 1, errors)
    ensures !(Cur(c, i + 1) == RBRACE || Cur(c, i + 1) == EOF) ==>
              i + 1 < |c.toks| &&
              var x := Expect(c, i + 1, COLON);
              var v := Grammar.ParseExpression(c, i + 3, LOWEST);
              var ys := xs + [Arg(Lit(c, i + 1), v.v)];
              AfterSome(xs, errors, ObjectFields(c, i)) ==
              if !x.v then R(None, x.at, errors + x.errs)
              else if Cur(c, v.at + 1) == RBRACE then R(Some(ys), v.at + 1, errors + v.errs)
              else AfterSome(ys, errors + v.errs, ObjectFields(c, SkipIf(c, v.at, COMMA)))
  {
    hide Grammar.ParseExpression, AfterSome;
    AfterSomeEnd(xs, errors, [], i + 1, []);
    if !(Cur(c, i + 1) == RBRACE || Cur(c, i + 1) == EOF) {
      var x := Expect(c, i + 1, COLON);
      var v := Grammar.ParseExpression(c, i + 3, LOWEST);
      AfterSomeGivesUp(xs, errors, x.at, x.errs);
      AfterSomeEnd(xs, errors, [Arg(Lit(c, i + 1), v.v)], v.at + 1, v.errs);
      if x.v {
        AfterSomeStep(xs, errors, [Arg(Lit(c, i + 1), v.v)], v.errs, ObjectFields(c, SkipIf(c, v.at, COMMA)));
      }
    }
  }

  lemma BareObjectStep(xs: seq<Arg>, errors: seq<Error>, c: Ctx, i: nat)
    ensures Cur(c, i) != IDENT ==>
              AfterSome(xs, errors, BareObjectBody(c, i)) == R(None, i, errors + [NoFieldName(Cur(c, i))])
    ensures Cur(c, i) == IDENT ==>
              var x := Expect(c, i, COLON);
              var v := Grammar.ParseExpression(c, i + 2, LOWEST);
              var ys := xs + [Arg(Lit(c, i), v.v)];
              AfterSome(xs, errors, BareObjectBody(c, i)) ==
              if !x.v then R(None, x.at, errors + x.errs)
              else if Cur(c, v.at + 1) == COMMA then AfterSome(ys, errors + v.errs, BareObjectBody(c, v.at + 2))
              else if Cur(c, v.at + 1) == RBRACE then R(Some(ys), v.at + 1, errors + v.errs)
              else if Cur(c, v.at) == RBRACE then R(Some(ys), v.at, errors + v.errs)
              else R(None, v.at, errors + v.errs + [BadObjectLiteral(Cur(c, v.at + 1))])
  {
    hide Grammar.ParseExpression, AfterSome;
    if Cur(c, i) != IDENT {
      AfterSomeGivesUp(xs, errors, i, [NoFieldName(Cur(c, i))]);
    } else {
      var x := Expect(c, i, COLON);
      var v := Grammar.ParseExpression(c, i + 2, LOWEST);
      var wrong := [BadObjectLiteral(Cur(c, v.at + 1))];
      AfterSomeGivesUp(xs, errors, x.at, x.errs);
      AfterSomeGivesUp(xs, errors, v.at, v.errs + wrong);
      assert errors + (v.errs + wrong) == errors + v.errs + wrong;
      AfterSomeEnd(xs, errors, [Arg(Lit(c, i), v.v)], v.at + 1, v.errs);
      AfterSomeEnd(xs, errors, [Arg(Lit(c, i), v.v)], v.at, v.errs);
      if Cur(c, v.at + 1) == COMMA {
        AfterSomeStep(xs, errors, [Arg(Lit(c, i), v.v)], v.errs, BareObjectBody(c, v.at + 2));
      }
    }
  }

  lemma StatementsStep(xs: seq<Stmt>, errors: seq<Error>, c: Ctx, i: nat, end: TokenType)
    ensures Cur(c, i) == end || Cur(c, i) == EOF ==>
              AfterMany(xs, errors, Statements(c, i, end)) == R(xs, i, errors)
    ensures !(Cur(c, i) == end || Cur(c, i) == EOF) ==>
              i < |c.toks| &&
              var s := Grammar.ParseStatement(c, i);
              AfterMany(xs, errors, Statements(c, i, end)) ==
              AfterMany(if s.v == NoStmt then xs else xs + [s.v], errors + s.errs, Statements(c, s.at + 1, end))
  {
    hide Grammar.ParseStatement, AfterMany;
    AfterManyEnd(xs, errors, i);
    if !(Cur(c, i) == end || Cur(c, i) == EOF) {
      var s := Grammar.ParseStatement(c, i);
      AfterManySteps(xs, errors, if s.v == NoStmt then [] else [s.v], s.errs, Statements(c, s.at + 1, end));
    }
  }

  lemma ArmsStep(xs: seq<Arm>, errors: seq<Error>, c: Ctx, i: nat)
    ensures Cur(c, i) == RBRACE || Cur(c, i) == EOF ==> AfterMany(xs, errors, Arms(c, i)) == R(xs, i, errors)
    ensures !(Cur(c, i) == RBRACE || Cur(c, i) == EOF) ==>
              i < |c.toks| &&
              var a := Grammar.ParseMatchArm(c, i);
              AfterMany(xs, errors, Arms(c, i)) ==
              AfterMany(xs + [a.v], errors + a.errs, Arms(c, SkipIf(c, a.at, COMMA) + 1))
  {
    hide Grammar.ParseMatchArm, AfterMany;
    AfterManyEnd(xs, errors, i);
    if !(Cur(c, i) == RBRACE || Cur(c, i) == EOF) {
      var a := Grammar.ParseMatchArm(c, i);
      AfterManyStep(xs, errors, a.v, a.errs, Arms(c, SkipIf(c, a.at, COMMA) + 1));
    }
  }

  lemma BindingsStep(xs: seq<string>, errors: seq<Error>, c: Ctx, i: nat)
    ensures Cur(c, i + 1) == RPAREN || Cur(c, i + 1) == EOF ==>
              AfterMany(xs, errors, Bindings(c, i)) == R(xs, i, errors)
    ensures !(Cur(c, i + 1) == RPAREN || Cur(c, i + 1) == EOF) ==>
              i + 1 < |c.toks| &&
              AfterMany(xs, errors, Bindings(c, i)) ==
              AfterMany(xs + [Lit(c, i + 1)], errors, Bindings(c, SkipIf(c, i + 1, COMMA)))
  {
    hide AfterMany;
    AfterManyEnd(xs, errors, i);
    if !(Cur(c, i + 1) == RPAREN || Cur(c, i + 1) == EOF) {
      AfterManyQuiet(xs, errors, Lit(c, i + 1), Bindings(c, SkipIf(c, i + 1, COMMA)));
    }
  }

  /** The field loop of a pattern: what it read and whether it came to the end. */
  ghost function AfterFields(xs: seq<FieldPattern>, errors: seq<Error>, r: R<(seq<FieldPattern>, bool)>)
    : R<(seq<FieldPattern>, bool)>
  {
    R((xs + r.v.0, r.v.1), r.at, errors + r.errs)
  }

  lemma AfterFieldsNone(errors: seq<Error>, r: R<(seq<FieldPattern>, bool)>)
    ensures AfterFields([], errors, r) == After(errors, r)
  {
    assert [] + r.v.0 == r.v.0;
  }

  /** One field of an object pattern, its name at `i`. */
  function OneFieldPattern(c: Ctx, i: nat): (r: R<FieldPattern>)
    ensures r.at >= i
  {
    if Cur(c, i + 1) != COLON then R(FieldPattern(Lit(c, i), None), i, [])
    else
      var sub := Grammar.ParsePattern(c, i + 2);
      R(FieldPattern(Lit(c, i), Some(sub.v)), sub.at, sub.errs)
  }

  lemma FieldPatternsStep(xs: seq<FieldPattern>, errors: seq<Error>, c: Ctx, i: nat)
    ensures Cur(c, i + 1) == RBRACE || Cur(c, i + 1) == EOF ==>
              AfterFields(xs, errors, FieldPatterns(c, i)) == R((xs, true), i, errors)
    ensures Cur(c, i + 1) != RBRACE && Cur(c, i + 1) != EOF && Cur(c, i + 1) != IDENT ==>
              AfterFields(xs, errors, FieldPatterns(c, i)) ==
              R((xs, false), i + 1, errors + [NoPatternField(Cur(c, i + 1))])
    ensures Cur(c, i + 1) == IDENT ==>
              i + 1 < |c.toks| &&
              var f := OneFieldPattern(c, i + 1);
              AfterFields(xs, errors, FieldPatterns(c, i)) ==
              AfterFields(xs + [f.v], errors + f.errs, FieldPatterns(c, SkipIf(c, f.at, COMMA)))
  {
    hide Grammar.ParsePattern;
    assert xs + [] == xs && errors + [] == errors;
    if Cur(c, i + 1) == IDENT {
      var f := OneFieldPattern(c, i + 1);
      var rest := FieldPatterns(c, SkipIf(c, f.at, COMMA));
      assert xs + ([f.v] + rest.v.0) == (xs + [f.v]) + rest.v.0;
      assert errors + (f.errs + rest.errs) == (errors + f.errs) + rest.errs;
    }
  }

  lemma ParamsUnfold(c: Ctx, i: nat)
    ensures var p := Grammar.ParseParam(c, i);
            && (Cur(c, p.at + 1) != COMMA ==> Params(c, i) == R([p.v], p.at, p.errs))
            && (Cur(c, p.at + 1) == COMMA ==>
                  p.at + 1 < |c.toks| &&
                  var rest := Params(c, p.at + 2);
                  Params(c, i) == R([p.v] + rest.v, rest.at, p.errs + rest.errs))
  {
    hide Grammar.ParseParam;
  }

  /** Names and rest so far: a later rest replaces an earlier one. */
  ghost function AfterNames(
    xs: seq<string>, rest: Option<(string, nat)>, errors: seq<Error>, r: R<(seq<string>, Option<(string, nat)>)>)
    : R<(seq<string>, Option<(string, nat)>)>
  {
    R((xs + r.v.0, if r.v.1.Some? then r.v.1 else rest), r.at, errors + r.errs)
  }

  lemma AfterNamesNone(errors: seq<Error>, r: R<(seq<string>, Option<(string, nat)>)>)
    ensures AfterNames([], None, errors, r) == After(errors, r)
  {
    assert [] + r.v.0 == r.v.0;
  }

  lemma DestructureStep(xs: seq<string>, rest: Option<(string, nat)>, errors: seq<Error>, c: Ctx, i: nat)
    ensures Cur(c, i) == RBRACKET || Cur(c, i) == EOF ==>
              AfterNames(xs, rest, errors, DestructureNames(c, i, |xs|)) == R((xs, rest), i, errors)
    ensures Cur(c, i) == SPREAD ==>
              i < |c.toks| &&
              AfterNames(xs, rest, errors, DestructureNames(c, i, |xs|)) ==
              AfterNames(xs, Some((Lit(c, i + 1), |xs|)), errors,
                         DestructureNames(c, SkipIf(c, i + 1, COMMA) + 1, |xs|))
    ensures Cur(c, i) != RBRACKET && Cur(c, i) != EOF && Cur(c, i) != SPREAD ==>
              i < |c.toks| &&
              AfterNames(xs, rest, errors, DestructureNames(c, i, |xs|)) ==
              AfterNames(xs + [Lit(c, i)], rest, errors, DestructureNames(c, SkipIf(c, i, COMMA) + 1, |xs| + 1))
  {
    assert xs + [] == xs && errors + [] == errors;
    if Cur(c, i) != RBRACKET && Cur(c, i) != EOF && Cur(c, i) != SPREAD {
      var more := DestructureNames(c, SkipIf(c, i, COMMA) + 1, |xs| + 1);
      assert xs + ([Lit(c, i)] + more.v.0) == (xs + [Lit(c, i)]) + more.v.0;
    }
  }

  lemma NamesStep(xs: seq<string>, errors: seq<Error>, c: Ctx, i: nat, end: TokenType)
    ensures Cur(c, i) == end || Cur(c, i) == EOF ==>
              AfterMany(xs, errors, NamesUntil(c, i, end)) == R(xs, i, errors)
    ensures !(Cur(c, i) == end || Cur(c, i) == EOF) ==>
              i < |c.toks| &&
              AfterMany(xs, errors, NamesUntil(c, i, end)) ==
              AfterMany(xs + [Lit(c, i)], errors, NamesUntil(c, SkipIf(c, i, COMMA) + 1, end))
  {
    hide AfterMany;
    AfterManyEnd(xs, errors, i);
    if !(Cur(c, i) == end || Cur(c, i) == EOF) {
      AfterManyQuiet(xs, errors, Lit(c, i), NamesUntil(c, SkipIf(c, i, COMMA) + 1, end));
    }
  }

  lemma MembersStep(xs: seq<Part>, errors: seq<Error>, c: Ctx, i: nat, t: TokenType)
    ensures Cur(c, i) == RBRACE || Cur(c, i) == EOF ==>
              AfterSome(xs, errors, Members(c, i, t)) == R(Some(xs), i, errors)
    ensures !(Cur(c, i) == RBRACE || Cur(c, i) == EOF) ==>
              i < |c.toks| &&
              var m := Member(c, i, t);
              AfterSome(xs, errors, Members(c, i, t)) ==
              if m.v == GiveUp then R(None, m.at, errors + m.errs)
              else if m.v == Cut then R(Some(xs), m.at, errors + m.errs)
              else AfterSome(xs + m.v.parts, errors + m.errs, Members(c, m.at + 1, t))
  {
    hide Member, AfterSome;
    AfterSomeEnd(xs, errors, [], i, []);
    if !(Cur(c, i) == RBRACE || Cur(c, i) == EOF) {
      var m := Member(c, i, t);
      AfterSomeGivesUp(xs, errors, m.at, m.errs);
      AfterSomeEnd(xs, errors, [], m.at, m.errs);
      if m.v.Go? {
        AfterSomeStep(xs, errors, m.v.parts, m.errs, Members(c, m.at + 1, t));
      }
    }
  }

  lemma FieldListStep(xs: seq<Part>, errors: seq<Error>, c: Ctx, i: nat)
    ensures Cur(c, i) == RBRACE || Cur(c, i) == EOF ==>
              AfterMany(xs, errors, Grammar.FieldList(c, i)) == R(xs, i, errors)
    ensures !(Cur(c, i) == RBRACE || Cur(c, i) == EOF) ==>
              i < |c.toks| &&
              var f := FieldMember(c, i);
              AfterMany(xs, errors, Grammar.FieldList(c, i)) ==
              if f.v.None? then R(xs, f.at, errors + f.errs)
              else AfterMany(xs + [f.v.value], errors + f.errs, Grammar.FieldList(c, f.at + 1))
  {
    hide FieldMember, AfterMany;
    AfterManyEnd(xs, errors, i);
    if !(Cur(c, i) == RBRACE || Cur(c, i) == EOF) {
      var f := FieldMember(c, i);
      AfterManyCut(xs, errors, f.at, f.errs);
      if f.v.Some? {
        AfterManyStep(xs, errors, f.v.value, f.errs, Grammar.FieldList(c, f.at + 1));
      }
    }
  }

  lemma VariantFieldsStep(xs: seq<(string, string)>, errors: seq<Error>, c: Ctx, i: nat)
    ensures Cur(c, i) == RPAREN || Cur(c, i) == EOF ==>
              AfterMany(xs, errors, VariantFields(c, i)) == R(xs, i, errors)
    ensures !(Cur(c, i) == RPAREN || Cur(c, i) == EOF) ==>
              i < |c.toks| &&
              var ty := OptionalType(c, i, COLON);
              AfterMany(xs, errors, VariantFields(c, i)) ==
              AfterMany(xs + [(Lit(c, i), ty.v)], errors, VariantFields(c, SkipIf(c, ty.at, COMMA) + 1))
  {
    hide OptionalType, AfterMany;
    AfterManyEnd(xs, errors, i);
    if !(Cur(c, i) == RPAREN || Cur(c, i) == EOF) {
      var ty := OptionalType(c, i, COLON);
      AfterManyQuiet(xs, errors, (Lit(c, i), ty.v), VariantFields(c, SkipIf(c, ty.at, COMMA) + 1));
    }
  }

  lemma ToolNamesStep(xs: seq<string>, errors: seq<Error>, c: Ctx, i: nat)
    ensures Cur(c, i) == RBRACKET || Cur(c, i) == EOF ==>
              AfterMany(xs, errors, ToolNames(c, i)) == R(xs, i, errors)
    ensures !(Cur(c, i) == RBRACKET || Cur(c, i) == EOF) ==>
              i < |c.toks| &&
              AfterMany(xs, errors, ToolNames(c, i)) ==
              AfterMany(if Cur(c, i) == IDENT || Cur(c, i) == TOOL then xs + [Lit(c, i)] else xs, errors,
                        ToolNames(c, SkipIf(c, i, COMMA) + 1))
  {
    hide AfterMany;
    AfterManyEnd(xs, errors, i);
    if !(Cur(c, i) == RBRACKET || Cur(c, i) == EOF) {
      var rest := ToolNames(c, SkipIf(c, i, COMMA) + 1);
      AfterManySteps(xs, errors, if Cur(c, i) == IDENT || Cur(c, i) == TOOL then [Lit(c, i)] else [], [], rest);
      assert errors + [] == errors && [] + rest.errs == rest.errs;
    }
  }

  lemma SettingsStep(xs: seq<Part>, errors: seq<Error>, c: Ctx, i: nat)
    ensures Cur(c, i) == RBRACE || Cur(c, i) == EOF ==>
              AfterSome(xs, errors, Settings(c, i)) == R(Some(xs), i, errors)
    ensures !(Cur(c, i) == RBRACE || Cur(c, i) == EOF) ==>
              i < |c.toks| &&
              var x := Expect(c, i, COLON);
              var e := Grammar.ParseExpression(c, i + 2, LOWEST);
              AfterSome(xs, errors, Settings(c, i)) ==
              if !x.v then R(None, x.at, errors + x.errs)
              else AfterSome(xs + SettingOf(Lit(c, i), e.v), errors + e.errs,
                             Settings(c, SkipIf(c, e.at, COMMA) + 1))
  {
    hide Grammar.ParseExpression, AfterSome, SettingOf;
    AfterSomeEnd(xs, errors, [], i, []);
    if !(Cur(c, i) == RBRACE || Cur(c, i) == EOF) {
      var x := Expect(c, i, COLON);
      var e := Grammar.ParseExpression(c, i + 2, LOWEST);
      AfterSomeGivesUp(xs, errors, x.at, x.errs);
      if x.v {
        AfterSomeStep(xs, errors, SettingOf(Lit(c, i), e.v), e.errs, Settings(c, SkipIf(c, e.at, COMMA) + 1));
      }
    }
  }

  lemma ResourcesStep(xs: seq<Part>, errors: seq<Error>, c: Ctx, i: nat)
    ensures Cur(c, i) == RBRACKET || Cur(c, i) == EOF ==>
              AfterMany(xs, errors, Resources(c, i)) == R(xs, i, errors)
    ensures Cur(c, i) != RBRACKET && Cur(c, i) != EOF && IsWordAt(c, i, "Resource") ==>
              i < |c.toks| &&
              var a := OneResource(c, i);
              AfterMany(xs, errors, Resources(c, i)) ==
              AfterMany(xs + [a.v], errors + a.errs, Resources(c, SkipIf(c, a.at, COMMA) + 1))
    ensures Cur(c, i) != RBRACKET && Cur(c, i) != EOF && !IsWordAt(c, i, "Resource") ==>
              i < |c.toks| &&
              Resources(c, i) == Resources(c, SkipIf(c, i, COMMA) + 1)
  {
    hide OneResource, AfterMany;
    AfterManyEnd(xs, errors, i);
    if Cur(c, i) != RBRACKET && Cur(c, i) != EOF && IsWordAt(c, i, "Resource") {
      var a := OneResource(c, i);
      AfterManyStep(xs, errors, a.v, a.errs, Resources(c, SkipIf(c, a.at, COMMA) + 1));
    }
  }

  lemma ResourceArgsStep(errors: seq<Error>, c: Ctx, i: nat, uri: string, content: string)
    ensures Cur(c, i) == RPAREN || Cur(c, i) == EOF ==>
              After(errors, ResourceArgs(c, i, uri, content)) == R((uri, content), i, errors)
    ensures !(Cur(c, i) == RPAREN || Cur(c, i) == EOF) ==>
              i < |c.toks| &&
              var a := WordArg(c, i, "uri", uri);
              var b := WordArg(c, a.at, "content", content);
              After(errors, ResourceArgs(c, i, uri, content)) ==
              After(errors + a.errs + b.errs, ResourceArgs(c, b.at + 1, a.v, b.v))
  {
    hide WordArg;
    if Cur(c, i) == RPAREN || Cur(c, i) == EOF {
      AfterNothing(errors, (uri, content), i);
    } else {
      var a := WordArg(c, i, "uri", uri);
      var b := WordArg(c, a.at, "content", content);
      ErrorsJoin(errors, a.errs, b.errs, ResourceArgs(c, b.at + 1, a.v, b.v).errs);
    }
  }

  lemma MiddlewaresStep(xs: seq<Part>, errors: seq<Error>, c: Ctx, i: nat)
    ensures Cur(c, i) == RBRACKET || Cur(c, i) == EOF ==>
              AfterSome(xs, errors, Middlewares(c, i)) == R(Some(xs), i, errors)
    ensures !(Cur(c, i) == RBRACKET || Cur(c, i) == EOF) ==>
              i < |c.toks| &&
              var m := MiddlewareRef(c, i);
              AfterSome(xs, errors, Middlewares(c, i)) ==
              if m.v == GiveUp || m.v == Cut then R(None, m.at, errors + m.errs)
              else AfterSome(xs + m.v.parts, errors + m.errs, Middlewares(c, SkipIf(c, m.at, COMMA) + 1))
  {
    hide MiddlewareRef, AfterSome;
    AfterSomeEnd(xs, errors, [], i, []);
    if !(Cur(c, i) == RBRACKET || Cur(c, i) == EOF) {
      var m := MiddlewareRef(c, i);
      AfterSomeGivesUp(xs, errors, m.at, m.errs);
      if m.v.Go? {
        AfterSomeStep(xs, errors, m.v.parts, m.errs, Middlewares(c, SkipIf(c, m.at, COMMA) + 1));
      }
    }
  }

  lemma ValuesUnfold(c: Ctx, i: nat)
    requires i < |c.toks|
    ensures var e := Grammar.ParseExpression(c, i + 1, LOWEST);
            && (Cur(c, e.at + 1) != COMMA ==> Values(c, i) == R([e.v], e.at, e.errs))
            && (Cur(c, e.at + 1) == COMMA ==>
                  e.at + 1 < |c.toks| &&
                  var rest := Values(c, e.at + 1);
                  Values(c, i) == R([e.v] + rest.v, rest.at, e.errs + rest.errs))
  {
    hide Grammar.ParseExpression;
  }

  lemma TransportArgsStep(xs: seq<Part>, errors: seq<Error>, c: Ctx, i: nat)
    ensures Cur(c, i + 1) == RPAREN || Cur(c, i + 1) == EOF ==>
              AfterSome(xs, errors, TransportArgs(c, i)) == R(Some(xs), i, errors)
    ensures Cur(c, i + 1) != RPAREN && Cur(c, i + 1) != EOF && Cur(c, i + 1) != IDENT ==>
              AfterSome(xs, errors, TransportArgs(c, i)) == R(Some(xs), i + 1, errors)
    ensures Cur(c, i + 1) == IDENT ==>
              i + 1 < |c.toks| &&
              var x := Expect(c, i + 1, COLON);
              var e := Grammar.ParseExpression(c, i + 3, LOWEST);
              AfterSome(xs, errors, TransportArgs(c, i)) ==
              if !x.v then R(None, x.at, errors + x.errs)
              else AfterSome(xs + TransportOf(Lit(c, i + 1), e.v), errors + e.errs,
                             TransportArgs(c, SkipIf(c, e.at, COMMA)))
  {
    hide Grammar.ParseExpression, AfterSome, TransportOf;
    AfterSomeEnd(xs, errors, [], i, []);
    AfterSomeEnd(xs, errors, [], i + 1, []);
    if Cur(c, i + 1) == IDENT {
      var x := Expect(c, i + 1, COLON);
      var e := Grammar.ParseExpression(c, i + 3, LOWEST);
      AfterSomeGivesUp(xs, errors, x.at, x.errs);
      if x.v {
        AfterSomeStep(xs, errors, TransportOf(Lit(c, i + 1), e.v), e.errs, TransportArgs(c, SkipIf(c, e.at, COMMA)));
      }
    }
  }
}
