/** Schema, validation, lowering and evaluation agree on tool arguments; and
    the declarations on which they do not. */
module ToolAgreement {
  import opened Options
  import opened ToolArgs
  import opened ToolSchemas

  // ---------- well-made declarations ----------

  predicate DistinctFields(fields: seq<Field>) {
    forall i, j :: 0 <= i < j < |fields| ==> fields[i].name != fields[j].name
  }

  predicate DistinctVariants(variants: seq<Variant>) {
    forall i, j :: 0 <= i < j < |variants| ==> variants[i].name != variants[j].name
  }

  predicate NoKind(fields: seq<Field>) {
    forall k :: 0 <= k < |fields| ==> fields[k].name != KIND
  }

  predicate GoodEnum(variants: seq<Variant>) {
    && |variants| > 0 && DistinctVariants(variants)
    && forall i :: 0 <= i < |variants| ==> DistinctFields(variants[i].fields) && NoKind(variants[i].fields)
  }

  /** Disjoint type names, no repeated names, enums that have variants, and no
      payload field called `kind`. */
  predicate GoodDecls(d: Decls) {
    && d.enums.Keys !! d.records.Keys
    && (forall n :: n in d.enums ==> GoodEnum(d.enums[n]))
    && (forall n :: n in d.records ==> DistinctFields(d.records[n]))
  }

  // ---------- what the schema accepts is valid ----------

  /** The properties hold the schema of every field. */
  lemma {:induction false} PropertiesAt(d: Decls, base: map<string, Schema>, fields: seq<Field>, depth: nat, k: nat)
    requires DistinctFields(fields) && Properties(d, base, fields, depth).Some? && k < |fields|
    ensures var props := Properties(d, base, fields, depth).value;
            fields[k].name in props && SchemaOf(d, fields[k].ty, depth) == Some(props[fields[k].name])
    decreases |fields|
  {
    hide SchemaOf;
    if k < |fields| - 1 { PropertiesAt(d, base, fields[..|fields| - 1], depth, k); }
  }

  lemma {:induction false} PropertiesKeep(d: Decls, base: map<string, Schema>, fields: seq<Field>, depth: nat,
      n: string)
    requires Properties(d, base, fields, depth).Some? && n in base
             && forall k :: 0 <= k < |fields| ==> fields[k].name != n
    ensures n in Properties(d, base, fields, depth).value && Properties(d, base, fields, depth).value[n] == base[n]
    decreases |fields|
  {
    hide SchemaOf;
    if |fields| > 0 { PropertiesKeep(d, base, fields[..|fields| - 1], depth, n); }
  }

  lemma {:induction false} RequiredAt(fields: seq<Field>, k: nat)
    requires k < |fields| && !Optional(fields[k])
    ensures fields[k].name in Required(fields)
    decreases |fields|
  {
    if k < |fields| - 1 { RequiredAt(fields[..|fields| - 1], k); }
  }

  lemma {:induction false} BranchAt(d: Decls, variants: seq<Variant>, depth: nat, i: nat)
    requires Branches(d, variants, depth).Some? && i < |variants|
    ensures RecordSchema(d, map[KIND := Const(variants[i].name)], [KIND], variants[i].fields, depth)
            == Some(Branches(d, variants, depth).value[i])
    decreases |variants|
  {
    hide RecordSchema;
    if i < |variants| - 1 { BranchAt(d, variants[..|variants| - 1], depth, i); }
  }

  lemma {:induction false} FindIs(variants: seq<Variant>, i: nat)
    requires DistinctVariants(variants) && i < |variants|
    ensures FindVariant(variants, variants[i].name) == i
  {
  }

  /** Whatever the generated schema accepts passes validation. */
  lemma {:induction false} AcceptedIsValid(d: Decls, j: Json, ty: Ty, depth: nat, s: Schema)
    requires GoodDecls(d) && SchemaOf(d, ty, depth) == Some(s) && Accepts(s, j)
    ensures Validate(d, j, ty)
    decreases j, 2, ty, 0
  {
    match ty
    case OptionOf(inner) => AcceptedOption(d, j, inner, depth, s);
    case ListOf(elem) =>
      var items := SchemaOf(d, elem, depth).value;
      hide SchemaOf;
      forall i | 0 <= i < |j.items| ensures Validate(d, j.items[i], elem) {
        AcceptedIsValid(d, j.items[i], elem, depth, items);
      }
    case Named(name) =>
      hide RecordSchema, EnumSchema, ValidEnum, ValidFields, GoodEnum, DistinctFields, Accepts;
      if name in d.records {
        AcceptedRecord(d, j, map[], [], d.records[name], depth - 1, s);
      } else if name in d.enums {
        AcceptedEnum(d, j, d.enums[name], depth - 1, s);
      }
    case _ =>
  }

  lemma {:induction false} AcceptedOption(d: Decls, j: Json, inner: Ty, depth: nat, s: Schema)
    requires GoodDecls(d) && SchemaOf(d, inner, depth) == Some(s) && Accepts(s, j)
    ensures Validate(d, j, OptionOf(inner))
    decreases j, 2, inner, 1
  {
    hide SchemaOf, Accepts, GoodDecls;
    if !inner.OptionOf? {
      AcceptedIsValid(d, j, inner, depth, s);
    }
  }

  lemma {:induction false} AcceptedRecord(d: Decls, j: Json, base: map<string, Schema>, first: seq<string>,
      fields: seq<Field>, depth: nat, s: Schema)
    requires GoodDecls(d) && DistinctFields(fields) && RecordSchema(d, base, first, fields, depth) == Some(s)
             && Accepts(s, j)
    ensures j.JObj? && ValidFields(d, j, fields)
    decreases j, 1, 0
  {
    hide SchemaOf, Properties, GoodDecls, Required;
    var props := Properties(d, base, fields, depth).value;
    forall k | 0 <= k < |fields|
      ensures if fields[k].name in j.members then Validate(d, j.members[fields[k].name], fields[k].ty)
              else Optional(fields[k])
    {
      PropertiesAt(d, base, fields, depth, k);
      if fields[k].name in j.members {
        AcceptedIsValid(d, j.members[fields[k].name], fields[k].ty, depth, props[fields[k].name]);
      } else if !Optional(fields[k]) {
        RequiredAt(fields, k);
      }
    }
  }

  lemma {:induction false} AcceptedEnum(d: Decls, j: Json, variants: seq<Variant>, depth: nat, s: Schema)
    requires GoodDecls(d) && GoodEnum(variants) && EnumSchema(d, variants, depth) == Some(s) && Accepts(s, j)
    ensures ValidEnum(d, j, variants)
    decreases j, 1, 1
  {
    if !AllUnit(variants) {
      var branches := Branches(d, variants, depth).value;
      var i :| 0 <= i < |branches| && Accepts(branches[i], j);
      hide Branches, RecordSchema, Accepts, GoodDecls, EnumSchema;
      BranchAt(d, variants, depth, i);
      AcceptedRecord(d, j, map[KIND := Const(variants[i].name)], [KIND], variants[i].fields, depth, branches[i]);
      BranchKind(d, j, variants[i], depth, branches[i]);
      FindIs(variants, i);
    }
  }

  lemma BranchKind(d: Decls, j: Json, v: Variant, depth: nat, s: Schema)
    requires NoKind(v.fields) && RecordSchema(d, map[KIND := Const(v.name)], [KIND], v.fields, depth) == Some(s)
             && Accepts(s, j)
    ensures j.JObj? && KIND in j.members && j.members[KIND] == JStr(v.name)
  {
    hide Properties, Required;
    PropertiesKeep(d, map[KIND := Const(v.name)], v.fields, depth, KIND);
    assert KIND in [KIND] + Required(v.fields);
  }

  // ---------- what is valid is lowered ----------

  predicate IsScalar(ty: Ty) {
    ty.IntTy? || ty.FloatTy? || ty.StringTy? || ty.BoolTy?
  }

  /** A declaration takes the name of this built-in type. */
  predicate Shadowed(d: Decls, ty: Ty) {
    IsScalar(ty) && (TypeName(ty).value in d.enums || TypeName(ty).value in d.records)
  }

  predicate Unshadowed(d: Decls) {
    !Shadowed(d, IntTy) && !Shadowed(d, FloatTy) && !Shadowed(d, StringTy) && !Shadowed(d, BoolTy)
  }

  /** A valid value is never dropped. */
  lemma {:induction false} ValidIsLowered(d: Decls, j: Json, ty: Ty)
    requires Validate(d, j, ty) && !Shadowed(d, Strip(ty))
    ensures Lower(d, j, ty).Some?
  {
    hide LowerAll, LowerFields, ValidFields;
  }

  /** Under such a name valid values are dropped, always but for an enum called
      `String`, which takes every string for one of its variants. */
  lemma ShadowExact(d: Decls, ty: Ty)
    requires IsScalar(ty)
    ensures (forall j :: Validate(d, j, ty) ==> Lower(d, j, ty).Some?)
            <==> !Shadowed(d, ty) || (ty.StringTy? && "String" in d.enums)
  {
    hide LowerAll, LowerFields, ValidFields;
    var j := if ty.BoolTy? then JBool(true) else if ty.StringTy? then JStr("") else JNum(0.0);
    assert IsWhole(0.0);
    assert Validate(d, j, ty);
    if Shadowed(d, ty) && !(ty.StringTy? && "String" in d.enums) {
      assert Lower(d, j, ty).None?;
    } else {
      forall v | Validate(d, v, ty) ensures Lower(d, v, ty).Some? {
        if !Shadowed(d, ty) { ValidIsLowered(d, v, ty); }
      }
    }
  }

  /** No element of a valid list is dropped, and each is lowered in its place. */
  lemma {:induction false} ListKept(d: Decls, items: seq<Json>, elem: Ty)
    requires !Shadowed(d, Strip(elem)) && forall i :: 0 <= i < |items| ==> Validate(d, items[i], elem)
    ensures |LowerAll(d, items, elem)| == |items|
    ensures forall i :: 0 <= i < |items| ==> Lower(d, items[i], elem) == Some(LowerAll(d, items, elem)[i])
    decreases |items|
  {
    hide Validate, Lower;
    if |items| > 0 {
      ValidIsLowered(d, items[0], elem);
      ListKept(d, items[1..], elem);
    }
  }

  // ---------- what is lowered evaluates to the declared type ----------

  /** No `Option` directly inside an `Option`. */
  predicate PlainTy(ty: Ty) {
    match ty
    case OptionOf(inner) => !inner.OptionOf? && PlainTy(inner)
    case ListOf(elem) => PlainTy(elem)
    case _ => true
  }

  predicate PlainFields(fields: seq<Field>) {
    DistinctFields(fields) && forall k :: 0 <= k < |fields| ==> PlainTy(fields[k].ty)
  }

  predicate PlainDecls(d: Decls) {
    && Unshadowed(d)
    && (forall n :: n in d.enums ==> DistinctVariants(d.enums[n]))
    && (forall n, i :: n in d.enums && 0 <= i < |d.enums[n]| ==> PlainFields(d.enums[n][i].fields))
    && (forall n :: n in d.records ==> PlainFields(d.records[n]))
  }

  /** The value that the lowered argument evaluates to. */
  function Argument(d: Decls, j: Json, ty: Ty): Value
    requires Lower(d, j, ty).Some?
  {
    Eval(Lower(d, j, ty).value)
  }

  lemma {:induction false} ValidIsTyped(d: Decls, j: Json, ty: Ty)
    requires PlainDecls(d) && PlainTy(ty) && Validate(d, j, ty)
    ensures Lower(d, j, ty).Some? && HasType(d, Argument(d, j, ty), ty)
    decreases j, 2
  {
    ValidIsLowered(d, j, ty);
    if !j.JNull? {
      var t := Strip(ty);
      OptionHasType(d, Argument(d, j, ty), ty);
      hide Validate, PlainDecls, HasType;
      match t
      case ListOf(elem) => TypedList(d, j, ty);
      case Named(name) =>
        if name in d.enums {
          TypedEnum(d, j, ty, name);
        } else if name in d.records {
          TypedRecord(d, j, ty, name);
        } else {
          UnknownHasType(d, Argument(d, j, ty), name);
        }
      case OptionOf(_) =>
      case _ => TypedScalar(d, j, ty);
    }
  }

  lemma OptionHasType(d: Decls, v: Value, ty: Ty)
    ensures HasType(d, v, ty) <==> HasType(d, v, Strip(ty))
  {
  }

  lemma UnknownHasType(d: Decls, v: Value, name: string)
    requires name !in d.enums && name !in d.records
    ensures HasType(d, v, Ty.Named(name))
  {
  }

  lemma TypedScalar(d: Decls, j: Json, ty: Ty)
    requires !j.JNull? && Validate(d, j, ty) && !Shadowed(d, Strip(ty))
             && (Strip(ty).IntTy? || Strip(ty).FloatTy? || Strip(ty).StringTy? || Strip(ty).BoolTy?)
    ensures Lower(d, j, ty).Some? && HasType(d, Argument(d, j, ty), Strip(ty))
  {
  }

  lemma {:induction false} TypedList(d: Decls, j: Json, ty: Ty)
    requires PlainDecls(d) && PlainTy(ty) && Validate(d, j, ty) && !j.JNull? && Strip(ty).ListOf?
    ensures Lower(d, j, ty).Some? && HasType(d, Argument(d, j, ty), Strip(ty))
    decreases j, 1
  {
    var elem := Strip(ty).elem;
    assert j.JArr? && forall i :: 0 <= i < |j.items| ==> Validate(d, j.items[i], elem);
    assert Lower(d, j, ty) == Some(ListLit(LowerAll(d, j.items, elem)));
    ListKept(d, j.items, elem);
    var lowered := LowerAll(d, j.items, elem);
    hide Lower, LowerAll, Validate, PlainDecls;
    forall i | 0 <= i < |lowered| ensures HasType(d, Eval(lowered[i]), elem) {
      ValidIsTyped(d, j.items[i], elem);
    }
  }

  /** A lowered field is present exactly when the member was, with the value
      the member evaluates to. */
  lemma {:induction false} FieldsAt(d: Decls, j: Json, fields: seq<Field>, k: nat)
    requires Unshadowed(d) && j.JObj? && DistinctFields(fields) && k < |fields| && ValidFields(d, j, fields)
    ensures var vs := EvalNamed(LowerFields(d, j, fields)); var n := fields[k].name;
            && (n in vs <==> n in j.members)
            && (n in j.members ==>
                  Lower(d, j.members[n], fields[k].ty).Some? && vs[n] == Argument(d, j.members[n], fields[k].ty))
    decreases |fields|
  {
    hide LowerFields, Lower, Validate, Eval, EvalNamed, ValidFields;
    var m := |fields| - 1;
    var last := fields[m];
    LastLowered(d, j, fields);
    var low := if last.name in j.members then Lower(d, j.members[last.name], last.ty).value else NilLit;
    FieldsStep(d, j, fields, low);
    ValidPrefix(d, j, fields);
    if k < m {
      FieldsAt(d, j, fields[..m], k);
    } else if last.name !in j.members {
      NotAmong(d, j, fields[..m], last.name);
    }
  }

  lemma LastLowered(d: Decls, j: Json, fields: seq<Field>)
    requires Unshadowed(d) && j.JObj? && ValidFields(d, j, fields) && |fields| > 0
    ensures var last := fields[|fields| - 1]; last.name in j.members ==> Lower(d, j.members[last.name], last.ty).Some?
  {
    hide Validate, Lower;
    var last := fields[|fields| - 1];
    if last.name in j.members {
      assert Validate(d, j.members[last.name], last.ty);
      ValidIsLowered(d, j.members[last.name], last.ty);
    }
  }

  lemma ValidPrefix(d: Decls, j: Json, fields: seq<Field>)
    requires j.JObj? && ValidFields(d, j, fields) && |fields| > 0
    ensures ValidFields(d, j, fields[..|fields| - 1])
  {
    hide Validate;
  }

  /** The last field adds its own value when it is present. */
  lemma FieldsStep(d: Decls, j: Json, fields: seq<Field>, low: Ast)
    requires j.JObj? && |fields| > 0
    requires var last := fields[|fields| - 1];
             last.name in j.members ==> Lower(d, j.members[last.name], last.ty) == Some(low)
    ensures var last := fields[|fields| - 1];
            var rest := EvalNamed(LowerFields(d, j, fields[..|fields| - 1]));
            EvalNamed(LowerFields(d, j, fields))
            == if last.name in j.members then rest[last.name := Eval(low)] else rest
  {
    hide Lower, Eval;
    var last := fields[|fields| - 1];
    var rest := LowerFields(d, j, fields[..|fields| - 1]);
    if last.name in j.members {
      var added := ToolArgs.Named.Named(last.name, low);
      assert LowerFields(d, j, fields) == rest + [added];
      assert (rest + [added])[..|rest|] == rest;
    }
  }

  /** A member that is absent is nowhere among the values. */
  lemma {:induction false} NotAmong(d: Decls, j: Json, fields: seq<Field>, n: string)
    requires Unshadowed(d) && j.JObj? && n !in j.members && ValidFields(d, j, fields)
    ensures n !in EvalNamed(LowerFields(d, j, fields))
    decreases |fields|
  {
    if |fields| > 0 {
      var last := fields[|fields| - 1];
      LastLowered(d, j, fields);
      var low := if last.name in j.members then Lower(d, j.members[last.name], last.ty).value else NilLit;
      FieldsStep(d, j, fields, low);
      ValidPrefix(d, j, fields);
      hide LowerFields, Lower, Validate, Eval, ValidFields;
      NotAmong(d, j, fields[..|fields| - 1], n);
    }
  }

  /** Only declared fields are among the values. */
  lemma {:induction false} OnlyDeclared(d: Decls, j: Json, fields: seq<Field>, n: string)
    requires Unshadowed(d) && j.JObj? && ValidFields(d, j, fields) && n in EvalNamed(LowerFields(d, j, fields))
    ensures exists k :: 0 <= k < |fields| && fields[k].name == n
    decreases |fields|
  {
    if |fields| > 0 {
      var m := |fields| - 1;
      var last := fields[m];
      LastLowered(d, j, fields);
      var low := if last.name in j.members then Lower(d, j.members[last.name], last.ty).value else NilLit;
      FieldsStep(d, j, fields, low);
      ValidPrefix(d, j, fields);
      hide LowerFields, Lower, Validate, Eval, ValidFields;
      if n == last.name {
        assert fields[m].name == n;
      } else {
        OnlyDeclared(d, j, fields[..m], n);
        var k :| 0 <= k < m && fields[..m][k].name == n;
        assert fields[k].name == n;
      }
    }
  }

  lemma {:induction false} TypedFields(d: Decls, j: Json, fields: seq<Field>, v: Value)
    requires PlainDecls(d) && PlainFields(fields) && j.JObj? && ValidFields(d, j, fields)
    requires (v.VEnum? || v.VObject?) && v.fields == EvalNamed(LowerFields(d, j, fields))
    ensures HasFields(d, v, fields)
    decreases j, 0
  {
    assert Unshadowed(d);
    hide PlainDecls, Unshadowed, HasType, Validate, LowerFields, EvalNamed, Argument;
    forall n | n in v.fields ensures exists k :: 0 <= k < |fields| && fields[k].name == n {
      OnlyDeclared(d, j, fields, n);
    }
    forall k | 0 <= k < |fields|
      ensures if fields[k].name in v.fields then HasType(d, v.fields[fields[k].name], fields[k].ty)
              else Optional(fields[k])
    {
      FieldsAt(d, j, fields, k);
      if fields[k].name in j.members {
        ValidIsTyped(d, j.members[fields[k].name], fields[k].ty);
      }
    }
  }

  lemma {:induction false} TypedRecord(d: Decls, j: Json, ty: Ty, name: string)
    requires PlainDecls(d) && Validate(d, j, ty) && !j.JNull? && Strip(ty) == Ty.Named(name)
    requires name !in d.enums && name in d.records
    ensures Lower(d, j, ty).Some? && HasType(d, Argument(d, j, ty), Strip(ty))
    decreases j, 1
  {
    var fields := d.records[name];
    assert j.JObj? && ValidFields(d, j, fields) && PlainFields(fields);
    var v := VObject(name, EvalNamed(LowerFields(d, j, fields)));
    assert Lower(d, j, ty).Some? && Argument(d, j, ty) == v;
    hide Lower, LowerFields, Validate, ValidFields, EvalNamed, HasFields, PlainDecls, PlainFields;
    TypedFields(d, j, fields, v);
  }

  lemma {:induction false} TypedEnum(d: Decls, j: Json, ty: Ty, name: string)
    requires PlainDecls(d) && Validate(d, j, ty) && !j.JNull? && Strip(ty) == Ty.Named(name) && name in d.enums
    ensures Lower(d, j, ty).Some? && HasType(d, Argument(d, j, ty), Strip(ty))
    decreases j, 1
  {
    assert ValidEnum(d, j, d.enums[name]) && DistinctVariants(d.enums[name]);
    assert Lower(d, j, ty) == LowerEnum(d, j, name);
    hide Lower, Validate;
    match j
    case JStr(s) => TypedUnit(d, s, name);
    case JObj(members) =>
      var i := FindVariant(d.enums[name], members[KIND].s);
      var fields := d.enums[name][i].fields;
      assert PlainFields(fields) && ValidFields(d, j, fields);
      var v := VEnum(name, members[KIND].s, EvalNamed(LowerFields(d, j, fields)));
      assert Argument(d, j, ty) == v;
      hide LowerFields, ValidFields, EvalNamed, HasFields, PlainDecls, PlainFields, LowerEnum, ValidEnum;
      TypedFields(d, j, fields, v);
    case _ => assert false;
  }

  /** A bare string names a variant without fields; with distinct variant names
      it is the first of that name. */
  lemma TypedUnit(d: Decls, s: string, name: string)
    requires name in d.enums && ValidEnum(d, JStr(s), d.enums[name]) && DistinctVariants(d.enums[name])
    ensures HasType(d, VEnum(name, s, map[]), Ty.Named(name))
  {
    var variants := d.enums[name];
    var i :| 0 <= i < |variants| && variants[i].name == s && |variants[i].fields| == 0;
    FindIs(variants, i);
  }

  // ---------- whole invocations ----------

  datatype Check = Checked | MissingArgument(name: string) | TypeMismatch(name: string)

  /** The checks of an invocation, in order: every required input present, then
      every input present of its type. */
  method CheckArguments(d: Decls, inputs: seq<Field>, args: map<string, Json>) returns (r: Check)
    ensures r.Checked? <==> ValidFields(d, JObj(args), inputs)
    ensures r.MissingArgument? ==> exists k :: 0 <= k < |inputs| && inputs[k].name == r.name
                                               && !Optional(inputs[k]) && r.name !in args
    ensures r.TypeMismatch? ==> exists k :: 0 <= k < |inputs| && inputs[k].name == r.name && r.name in args
                                            && !Validate(d, args[r.name], inputs[k].ty)
  {
    hide Validate;
    for k := 0 to |inputs|
      invariant forall i :: 0 <= i < k && !Optional(inputs[i]) ==> inputs[i].name in args
    {
      if !Optional(inputs[k]) && inputs[k].name !in args {
        return MissingArgument(inputs[k].name);
      }
    }
    for k := 0 to |inputs|
      invariant forall i :: 0 <= i < k && inputs[i].name in args ==> Validate(d, args[inputs[i].name], inputs[i].ty)
    {
      if inputs[k].name in args && !Validate(d, args[inputs[k].name], inputs[k].ty) {
        return TypeMismatch(inputs[k].name);
      }
    }
    return Checked;
  }

  /** Arguments that the tool's generated schema accepts are accepted by the
      invocation, and every argument given reaches the tool as a value of the
      declared type.  There is a schema because no declaration the inputs lead
      to reaches itself. */
  lemma AgreedArguments(d: Decls, inputs: seq<Field>, args: map<string, Json>, k: nat)
    requires GoodDecls(d) && PlainDecls(d) && PlainFields(inputs) && AcyclicFields(d, inputs) && k < |inputs|
    ensures InputSchema(d, inputs).Some?
    ensures var input := inputs[k];
            Accepts(InputSchema(d, inputs).value, JObj(args)) ==>
              && ValidFields(d, JObj(args), inputs)
              && if input.name in args then
                   && Lower(d, args[input.name], input.ty).Some?
                   && HasType(d, Argument(d, args[input.name], input.ty), input.ty)
                 else Optional(input)
  {
    var j := JObj(args);
    InputSchemaExists(d, inputs);
    hide RecordSchema, Accepts, GoodDecls, PlainDecls, HasType, Argument, Validate;
    if Accepts(InputSchema(d, inputs).value, j) {
      AcceptedRecord(d, j, map[], [], inputs, |Declared(d)|, InputSchema(d, inputs).value);
      if inputs[k].name in args {
        assert Validate(d, j.members[inputs[k].name], inputs[k].ty);
        ValidIsTyped(d, args[inputs[k].name], inputs[k].ty);
      }
    }
  }

  // ---------- where they do not agree ----------

  /** An `Option` in an `Option` is stripped only once: anything validates, and
      it arrives with whatever type it has. */
  lemma NestedOption(d: Decls)
    ensures var ty := OptionOf(OptionOf(IntTy));
            && Validate(d, JStr("x"), ty) && Lower(d, JStr("x"), ty).Some?
            && Argument(d, JStr("x"), ty) == VStr("x") && !HasType(d, VStr("x"), ty)
  {
  }

  /** Precisely: validation looks at a type if and only if no `Option` is left
      after stripping one. */
  lemma StripsOnce(d: Decls, inner: Ty)
    ensures forall j :: Validate(d, j, OptionOf(OptionOf(inner)))
    ensures forall j :: Validate(d, j, OptionOf(inner)) <==> Validate(d, j, inner) || inner.OptionOf?
  {
  }
}
