/** Arguments arrive as what they say: the value a tool receives is the JSON value it
    was called with, read at the declared type. */
module ToolValues {
  import opened Options
  import opened ToolArgs
  import opened ToolAgreement

  /** `v` is the number `r`: as an integer where there is one. */
  predicate IsNumber(r: real, v: Value) {
    if r.Floor as real == r then v.VInt? && v.n as real == r else v == VFloat(r)
  }

  /** Without a type: the same truth value, text or number, the elements in order, the
      members by name. */
  predicate SameAs(j: Json, v: Value)
    decreases j
  {
    match j
    case JNull => v == VNil
    case JBool(b) => v == VBool(b)
    case JStr(s) => v == VStr(s)
    case JNum(r) => IsNumber(r, v)
    case JArr(items) =>
      v.VList? && |v.elems| == |items| && forall i :: 0 <= i < |items| ==> SameAs(items[i], v.elems[i])
    case JObj(members) =>
      && v.VObject? && v.tname == "Object" && v.fields.Keys == members.Keys
      && forall n :: n in members ==> SameAs(members[n], v.fields[n])
  }

  /** Read at a type. */
  predicate Means(d: Decls, j: Json, ty: Ty, v: Value)
    decreases j, 1, ty
  {
    if j.JNull? then v == VNil
    else
      match ty
      case OptionOf(inner) => Means(d, j, inner, v)
      case ListOf(elem) =>
        && j.JArr? && v.VList? && |v.elems| == |j.items|
        && forall i :: 0 <= i < |j.items| ==> Means(d, j.items[i], elem, v.elems[i])
      case IntTy => j.JNum? && v.VInt? && v.n as real == j.r
      case FloatTy => j.JNum? && IsNumber(j.r, v)
      case StringTy => j.JStr? && v == VStr(j.s)
      case BoolTy => j.JBool? && v == VBool(j.b)
      case Named(name) =>
        if name in d.enums then MeansVariant(d, j, name, v)
        else if name in d.records then
          j.JObj? && v.VObject? && v.tname == name && MeansFields(d, j, d.records[name], v.fields)
        else "" !in d.enums && "" !in d.records ==> SameAs(j, v)
  }

  /** A string names the variant; an object names it by `kind` and holds its fields. */
  predicate MeansVariant(d: Decls, j: Json, name: string, v: Value)
    requires name in d.enums
    decreases j, 0, 1
  {
    && v.VEnum? && v.enum == name
    && (j.JStr? ==> v.variant == j.s && v.fields == map[])
    && (j.JStr? || j.JObj?)
    && (j.JObj? ==>
          && KIND in j.members && j.members[KIND] == JStr(v.variant)
          && exists i :: 0 <= i < |d.enums[name]| && d.enums[name][i].name == v.variant
                         && MeansFields(d, j, d.enums[name][i].fields, v.fields))
  }

  /** The fields are the declared ones that are present, each with its value. */
  predicate MeansFields(d: Decls, j: Json, fields: seq<Field>, m: map<string, Value>)
    requires j.JObj?
    decreases j, 0, 0
  {
    && (forall n :: n in m ==> exists k :: 0 <= k < |fields| && fields[k].name == n)
    && forall k :: 0 <= k < |fields| ==>
         && (fields[k].name in m <==> fields[k].name in j.members)
         && (fields[k].name in m ==> Means(d, j.members[fields[k].name], fields[k].ty, m[fields[k].name]))
  }

  // ---------- values without a type ----------

  lemma {:induction false} UntypedSame(d: Decls, j: Json, ty: Ty)
    requires "" !in d.enums && "" !in d.records
    requires ty.Named? && ty.name !in d.enums && ty.name !in d.records
    ensures Lower(d, j, ty).Some? && SameAs(j, Eval(Lower(d, j, ty).value))
    decreases j
  {
    match j
    case JArr(items) =>
      UntypedAll(d, items);
      hide LowerAll;
      assert Lower(d, j, ty) == Some(ListLit(LowerAll(d, items, Ty.Named(""))));
    case JObj(members) =>
      forall n | n in members
        ensures Lower(d, members[n], Ty.Named("")).Some?
        ensures SameAs(members[n], Eval(Lower(d, members[n], Ty.Named("")).value))
      {
        UntypedSame(d, members[n], Ty.Named(""));
      }
    case _ =>
  }

  lemma {:induction false} UntypedAll(d: Decls, items: seq<Json>)
    requires "" !in d.enums && "" !in d.records
    ensures var es := LowerAll(d, items, Ty.Named(""));
            |es| == |items| && forall i :: 0 <= i < |items| ==> SameAs(items[i], Eval(es[i]))
    decreases items
  {
    hide Lower, Eval;
    if |items| > 0 {
      UntypedSame(d, items[0], Ty.Named(""));
      UntypedAll(d, items[1..]);
    }
  }

  // ---------- values of a declared type ----------

  /** What is valid for a type arrives as what it says at that type. */
  lemma {:induction false} ValidMeans(d: Decls, j: Json, ty: Ty)
    requires PlainDecls(d) && PlainTy(ty) && Validate(d, j, ty)
    ensures Lower(d, j, ty).Some? && Means(d, j, ty, Argument(d, j, ty))
    decreases j, 2
  {
    ValidIsLowered(d, j, ty);
    if j.JNull? {
      assert Argument(d, j, ty) == VNil;
    } else {
      OptionMeans(d, j, ty, Argument(d, j, ty));
      hide Validate, PlainDecls, Means;
      match Strip(ty)
      case ListOf(elem) => ListMeans(d, j, ty);
      case Named(name) =>
        if name in d.enums {
          VariantMeans(d, j, ty, name);
        } else if name in d.records {
          RecordMeans(d, j, ty, name);
        } else {
          UnknownMeans(d, j, ty, name);
        }
      case OptionOf(_) => NoOption(ty);
      case _ => ScalarMeans(d, j, ty);
    }
  }

  lemma NoOption(ty: Ty)
    requires PlainTy(ty)
    ensures !Strip(ty).OptionOf?
  {
  }

  lemma OptionMeans(d: Decls, j: Json, ty: Ty, v: Value)
    ensures Means(d, j, ty, v) <==> Means(d, j, Strip(ty), v)
  {
  }

  lemma ScalarMeans(d: Decls, j: Json, ty: Ty)
    requires !j.JNull? && Validate(d, j, ty) && !Shadowed(d, Strip(ty)) && IsScalar(Strip(ty))
    ensures Lower(d, j, ty).Some? && Means(d, j, Strip(ty), Argument(d, j, ty))
  {
  }

  lemma UnknownMeans(d: Decls, j: Json, ty: Ty, name: string)
    requires !j.JNull? && Strip(ty) == Ty.Named(name) && name !in d.enums && name !in d.records
    requires Lower(d, j, ty).Some?
    ensures Means(d, j, Strip(ty), Argument(d, j, ty))
  {
    if "" !in d.enums && "" !in d.records {
      UntypedSame(d, j, Ty.Named(name));
      StripLowers(d, j, ty);
    }
    hide Lower, SameAs;
  }

  lemma StripLowers(d: Decls, j: Json, ty: Ty)
    requires !Strip(ty).OptionOf?
    ensures Lower(d, j, ty) == Lower(d, j, Strip(ty))
  {
  }

  lemma {:induction false} ListMeans(d: Decls, j: Json, ty: Ty)
    requires PlainDecls(d) && PlainTy(ty) && Validate(d, j, ty) && !j.JNull? && Strip(ty).ListOf?
    ensures Lower(d, j, ty).Some? && Means(d, j, Strip(ty), Argument(d, j, ty))
    decreases j, 1
  {
    var elem := Strip(ty).elem;
    assert j.JArr? && forall i :: 0 <= i < |j.items| ==> Validate(d, j.items[i], elem);
    assert Lower(d, j, ty) == Some(ListLit(LowerAll(d, j.items, elem)));
    ListKept(d, j.items, elem);
    var lowered := LowerAll(d, j.items, elem);
    hide Lower, LowerAll, Validate, PlainDecls;
    forall i | 0 <= i < |lowered| ensures Means(d, j.items[i], elem, Eval(lowered[i])) {
      ValidMeans(d, j.items[i], elem);
    }
    assert Argument(d, j, ty) == VList(seq(|lowered|, i requires 0 <= i < |lowered| => Eval(lowered[i])));
  }

  /** The declared fields of an object, and the inputs of a tool: each arrives as what it
      says, those that are not given are not there, and nothing else is. */
  lemma {:induction false} FieldsMean(d: Decls, j: Json, fields: seq<Field>)
    requires PlainDecls(d) && PlainFields(fields) && j.JObj? && ValidFields(d, j, fields)
    ensures MeansFields(d, j, fields, EvalNamed(LowerFields(d, j, fields)))
    decreases j, 0
  {
    assert Unshadowed(d);
    hide PlainDecls, Unshadowed, Means, Validate, LowerFields, EvalNamed, Argument;
    var m := EvalNamed(LowerFields(d, j, fields));
    forall n | n in m ensures exists k :: 0 <= k < |fields| && fields[k].name == n {
      OnlyDeclared(d, j, fields, n);
    }
    forall k | 0 <= k < |fields|
      ensures fields[k].name in m <==> fields[k].name in j.members
      ensures fields[k].name in m ==> Means(d, j.members[fields[k].name], fields[k].ty, m[fields[k].name])
    {
      FieldsAt(d, j, fields, k);
      if fields[k].name in j.members { ValidMeans(d, j.members[fields[k].name], fields[k].ty); }
    }
  }

  lemma {:induction false} RecordMeans(d: Decls, j: Json, ty: Ty, name: string)
    requires PlainDecls(d) && Validate(d, j, ty) && !j.JNull? && Strip(ty) == Ty.Named(name)
    requires name !in d.enums && name in d.records
    ensures Lower(d, j, ty).Some? && Means(d, j, Strip(ty), Argument(d, j, ty))
    decreases j, 1
  {
    var fields := d.records[name];
    assert j.JObj? && ValidFields(d, j, fields) && PlainFields(fields);
    assert Lower(d, j, ty).Some? && Argument(d, j, ty) == VObject(name, EvalNamed(LowerFields(d, j, fields)));
    hide Lower, LowerFields, Validate, ValidFields, EvalNamed, MeansFields, PlainDecls, PlainFields;
    FieldsMean(d, j, fields);
  }

  lemma {:induction false} VariantMeans(d: Decls, j: Json, ty: Ty, name: string)
    requires PlainDecls(d) && Validate(d, j, ty) && !j.JNull? && Strip(ty) == Ty.Named(name) && name in d.enums
    ensures Lower(d, j, ty).Some? && Means(d, j, Strip(ty), Argument(d, j, ty))
    decreases j, 1
  {
    assert ValidEnum(d, j, d.enums[name]);
    assert Lower(d, j, ty) == LowerEnum(d, j, name);
    hide Lower, Validate;
    match j
    case JStr(s) =>
    case JObj(members) =>
      var i := FindVariant(d.enums[name], members[KIND].s);
      var fields := d.enums[name][i].fields;
      assert PlainFields(fields) && ValidFields(d, j, fields);
      var v := VEnum(name, members[KIND].s, EvalNamed(LowerFields(d, j, fields)));
      assert Argument(d, j, ty) == v;
      hide LowerFields, ValidFields, EvalNamed, MeansFields, PlainDecls, PlainFields, LowerEnum, ValidEnum;
      FieldsMean(d, j, fields);
      assert d.enums[name][i].name == v.variant;
    case _ => assert false;
  }

  // ---------- the relation leaves no choice ----------

  lemma {:induction false} SameAsOne(j: Json, v: Value, w: Value)
    requires SameAs(j, v) && SameAs(j, w)
    ensures v == w
    decreases j
  {
    match j
    case JArr(items) =>
      forall i | 0 <= i < |items| ensures v.elems[i] == w.elems[i] {
        SameAsOne(items[i], v.elems[i], w.elems[i]);
      }
    case JObj(members) =>
      forall n | n in members ensures v.fields[n] == w.fields[n] {
        SameAsOne(members[n], v.fields[n], w.fields[n]);
      }
      assert v.fields == w.fields;
    case _ =>
  }

  /** A JSON value means one value at a type. */
  lemma {:induction false} MeansOne(d: Decls, j: Json, ty: Ty, v: Value, w: Value)
    requires PlainDecls(d) && "" !in d.enums && "" !in d.records && Means(d, j, ty, v) && Means(d, j, ty, w)
    ensures v == w
    decreases j, 1, ty
  {
    if !j.JNull? {
      match ty
      case OptionOf(inner) => MeansOne(d, j, inner, v, w);
      case ListOf(elem) =>
        forall i | 0 <= i < |j.items| ensures v.elems[i] == w.elems[i] {
          MeansOne(d, j.items[i], elem, v.elems[i], w.elems[i]);
        }
      case Named(name) =>
        if name in d.enums {
          VariantOne(d, j, name, v, w);
        } else if name in d.records {
          FieldsOne(d, j, d.records[name], v.fields, w.fields);
        } else {
          SameAsOne(j, v, w);
        }
      case _ =>
    }
  }

  lemma {:induction false} VariantOne(d: Decls, j: Json, name: string, v: Value, w: Value)
    requires PlainDecls(d) && "" !in d.enums && "" !in d.records && name in d.enums
    requires MeansVariant(d, j, name, v) && MeansVariant(d, j, name, w)
    ensures v == w
    decreases j, 0, 1
  {
    if j.JObj? {
      hide MeansFields;
      assert DistinctVariants(d.enums[name]);
      var i :| 0 <= i < |d.enums[name]| && d.enums[name][i].name == v.variant
               && MeansFields(d, j, d.enums[name][i].fields, v.fields);
      var k :| 0 <= k < |d.enums[name]| && d.enums[name][k].name == w.variant
               && MeansFields(d, j, d.enums[name][k].fields, w.fields);
      assert i == k;
      FieldsOne(d, j, d.enums[name][i].fields, v.fields, w.fields);
    }
  }

  lemma {:induction false} FieldsOne(d: Decls, j: Json, fields: seq<Field>, m: map<string, Value>, l: map<string,
      Value>)
    requires PlainDecls(d) && "" !in d.enums && "" !in d.records && j.JObj?
    requires MeansFields(d, j, fields, m) && MeansFields(d, j, fields, l)
    ensures m == l
    decreases j, 0, 0
  {
    hide Means, PlainDecls;
    forall n | n in m || n in l ensures n in m && n in l && m[n] == l[n] {
      var k :| 0 <= k < |fields| && fields[k].name == n;
      MeansOne(d, j.members[n], fields[k].ty, m[n], l[n]);
    }
  }
}
