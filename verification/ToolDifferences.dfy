/** Exactly when what a generated schema accepts is valid, declaration by
    declaration, and inputs on which the two come apart. */
module ToolDifferences {
  import opened Options
  import opened ToolArgs
  import opened ToolAgreement

  /** Whatever the schema accepts is a valid value of the type. */
  ghost predicate Included(d: Decls, s: Schema, ty: Ty) {
    forall j :: Accepts(s, j) ==> Validate(d, j, ty)
  }

  // ---------- generated schemas can be satisfied ----------

  /** Required names are properties, and there is a branch to choose. */
  predicate WellMade(s: Schema) {
    match s
    case Array(items) => WellMade(items)
    case Record(props, required) =>
      (forall n :: n in required ==> n in props) && forall n :: n in props ==> WellMade(props[n])
    case AnyOf(branches) => |branches| > 0 && forall i :: 0 <= i < |branches| ==> WellMade(branches[i])
    case _ => true
  }

  function Sample(s: Schema): Json {
    match s
    case Integer => JNum(0.0)
    case Number => JNum(0.0)
    case Text => JStr("")
    case Boolean => JBool(true)
    case Array(_) => JArr([])
    case Record(props, _) => JObj(map n | n in props :: Sample(props[n]))
    case AnyOf(branches) => if |branches| > 0 then Sample(branches[0]) else JNull
    case Enumeration(names) => JStr(if |names| > 0 then names[0] else "")
    case Const(name) => JStr(name)
  }

  lemma {:induction false} SampleAccepted(s: Schema)
    requires WellMade(s)
    ensures Accepts(s, Sample(s))
    decreases s
  {
    match s
    case Record(props, required) =>
      forall n | n in props ensures Accepts(props[n], Sample(props[n])) {
        SampleAccepted(props[n]);
      }
    case AnyOf(branches) => SampleAccepted(branches[0]);
    case Integer => assert IsWhole(0.0);
    case _ =>
  }

  lemma {:induction false} SchemaWellMade(d: Decls, ty: Ty, depth: nat)
    requires SchemaOf(d, ty, depth).Some?
    ensures WellMade(SchemaOf(d, ty, depth).value)
    decreases depth, 0, ty
  {
    match ty
    case OptionOf(inner) => SchemaWellMade(d, inner, depth);
    case ListOf(elem) => SchemaWellMade(d, elem, depth);
    case Named(name) =>
      hide RecordSchema, Branches;
      if name in d.records {
        RecordWellMade(d, map[], [], d.records[name], depth - 1);
      } else if name in d.enums && !AllUnit(d.enums[name]) {
        BranchesWellMade(d, d.enums[name], depth - 1);
      }
    case _ =>
  }

  lemma {:induction false} RecordWellMade(d: Decls, base: map<string, Schema>, first: seq<string>, fields: seq<Field>,
      depth: nat)
    requires RecordSchema(d, base, first, fields, depth).Some?
    requires (forall n :: n in base ==> WellMade(base[n])) && forall n :: n in first ==> n in base
    ensures WellMade(RecordSchema(d, base, first, fields, depth).value)
    ensures RecordSchema(d, base, first, fields, depth).value.Record?
    decreases depth, 2, |fields|
  {
    hide Properties, Required;
    PropertiesWellMade(d, base, fields, depth);
  }

  lemma {:induction false} PropertiesWellMade(d: Decls, base: map<string, Schema>, fields: seq<Field>, depth: nat)
    requires Properties(d, base, fields, depth).Some? && forall n :: n in base ==> WellMade(base[n])
    ensures var props := Properties(d, base, fields, depth).value;
            && (forall n :: n in props ==> WellMade(props[n]))
            && (forall n :: n in base ==> n in props)
            && (forall n :: n in Required(fields) ==> n in props)
    decreases depth, 1, |fields|
  {
    hide SchemaOf, WellMade;
    if |fields| > 0 {
      PropertiesWellMade(d, base, fields[..|fields| - 1], depth);
      SchemaWellMade(d, fields[|fields| - 1].ty, depth);
    }
  }

  lemma {:induction false} BranchesWellMade(d: Decls, variants: seq<Variant>, depth: nat)
    requires Branches(d, variants, depth).Some?
    ensures forall i :: 0 <= i < |variants| ==> WellMade(Branches(d, variants, depth).value[i])
    decreases depth, 3, |variants|
  {
    if |variants| > 0 {
      var last := variants[|variants| - 1];
      hide RecordSchema;
      BranchesWellMade(d, variants[..|variants| - 1], depth);
      RecordWellMade(d, map[KIND := Const(last.name)], [KIND], last.fields, depth);
    }
  }

  // ---------- an object schema against declared fields ----------

  /** The schema sees to it that the field is there, if it must be, and that a
      value it lets through is valid; a field it does not know gets any value. */
  ghost predicate FieldFits(d: Decls, props: map<string, Schema>, required: seq<string>, f: Field) {
    && (f.name in required || Optional(f))
    && if f.name in props then Included(d, props[f.name], f.ty) else forall v :: Validate(d, v, f.ty)
  }

  ghost predicate FieldsFit(d: Decls, props: map<string, Schema>, required: seq<string>, fields: seq<Field>) {
    forall m :: 0 <= m < |fields| ==> FieldFits(d, props, required, fields[m])
  }

  /** An object with just the required members. */
  function Least(props: map<string, Schema>, required: seq<string>): map<string, Json> {
    map n | n in required && n in props :: Sample(props[n])
  }

  /** The least object, with one member as given. */
  lemma LeastWith(props: map<string, Schema>, required: seq<string>, n: string, v: Json)
    requires WellMade(Record(props, required)) && (n in props ==> Accepts(props[n], v))
    ensures Accepts(Record(props, required), JObj(Least(props, required)[n := v]))
  {
    var j := Least(props, required)[n := v];
    hide Accepts, Sample, WellMade;
    forall p | p in props && p in j ensures Accepts(props[p], j[p]) {
      if p != n { SampleAccepted(props[p]) by { PropWellMade(props, required, p); } }
    }
    assert forall p :: p in required ==> p in props by { PropsWellMade(props, required); }
    RecordAccepts(props, required, j);
  }

  lemma LeastAccepted(props: map<string, Schema>, required: seq<string>)
    requires WellMade(Record(props, required))
    ensures Accepts(Record(props, required), JObj(Least(props, required)))
  {
    var j := Least(props, required);
    hide Accepts, Sample, WellMade;
    forall p | p in props && p in j ensures Accepts(props[p], j[p]) {
      SampleAccepted(props[p]) by { PropWellMade(props, required, p); }
    }
    assert forall p :: p in required ==> p in props by { PropsWellMade(props, required); }
    RecordAccepts(props, required, j);
  }

  lemma PropWellMade(props: map<string, Schema>, required: seq<string>, p: string)
    requires WellMade(Record(props, required)) && p in props
    ensures WellMade(props[p])
  {
  }

  lemma PropsWellMade(props: map<string, Schema>, required: seq<string>)
    requires WellMade(Record(props, required))
    ensures forall p :: p in required ==> p in props
  {
  }

  lemma RecordAccepts(props: map<string, Schema>, required: seq<string>, members: map<string, Json>)
    ensures Accepts(Record(props, required), JObj(members)) <==>
            (forall n :: n in required ==> n in members)
            && forall n :: n in props && n in members ==> Accepts(props[n], members[n])
  {
  }

  ghost predicate ObjectsValid(d: Decls, s: Schema, fields: seq<Field>) {
    forall j :: Accepts(s, j) ==> j.JObj? && ValidFields(d, j, fields)
  }

  /** All objects the schema accepts have valid fields, exactly when it fits
      each field. */
  lemma FieldsExact(d: Decls, props: map<string, Schema>, required: seq<string>, fields: seq<Field>)
    requires WellMade(Record(props, required))
    ensures ObjectsValid(d, Record(props, required), fields) <==> FieldsFit(d, props, required, fields)
  {
    hide FieldsFit, FieldFits, ValidFields, WellMade, Accepts;
    if FieldsFit(d, props, required, fields) {
      forall j | Accepts(Record(props, required), j) ensures j.JObj? && ValidFields(d, j, fields) {
        FitsValid(d, props, required, fields, j);
      }
    }
    if ObjectsValid(d, Record(props, required), fields) {
      forall m | 0 <= m < |fields| ensures FieldFits(d, props, required, fields[m]) {
        ValidFits(d, props, required, fields, m);
      }
      FitsAll(d, props, required, fields);
    }
  }

  lemma FitsAll(d: Decls, props: map<string, Schema>, required: seq<string>, fields: seq<Field>)
    requires forall m :: 0 <= m < |fields| ==> FieldFits(d, props, required, fields[m])
    ensures FieldsFit(d, props, required, fields)
  {
  }

  lemma FitsValid(d: Decls, props: map<string, Schema>, required: seq<string>, fields: seq<Field>, j: Json)
    requires FieldsFit(d, props, required, fields) && Accepts(Record(props, required), j)
    ensures j.JObj? && ValidFields(d, j, fields)
  {
    hide Validate, Optional;
    forall k | 0 <= k < |fields|
      ensures if fields[k].name in j.members then Validate(d, j.members[fields[k].name], fields[k].ty)
              else Optional(fields[k])
    {
      assert FieldFits(d, props, required, fields[k]);
    }
  }

  lemma ValidFits(d: Decls, props: map<string, Schema>, required: seq<string>, fields: seq<Field>, m: nat)
    requires WellMade(Record(props, required)) && m < |fields|
    requires ObjectsValid(d, Record(props, required), fields)
    ensures FieldFits(d, props, required, fields[m])
  {
    hide Accepts, Validate, WellMade, Optional, Sample;
    var f, s := fields[m], Record(props, required);
    LeastAccepted(props, required);
    assert ValidFields(d, JObj(Least(props, required)), fields);
    assert f.name in required || Optional(f);
    forall v | f.name in props ==> Accepts(props[f.name], v) ensures Validate(d, v, f.ty) {
      LeastWith(props, required, f.name, v);
      var j := JObj(Least(props, required)[f.name := v]);
      assert ValidFields(d, j, fields) && j.members[f.name] == v;
    }
  }

  /** Records: exactly when the schema fits every field. */
  lemma RecordExact(d: Decls, name: string, depth: nat)
    requires name in d.records && name !in d.enums && SchemaOf(d, Ty.Named(name), depth).Some?
    ensures var s := SchemaOf(d, Ty.Named(name), depth).value;
            s.Record? && (Included(d, s, Ty.Named(name)) <==> FieldsFit(d, s.props, s.required, d.records[name]))
  {
    var fields := d.records[name];
    hide RecordSchema, FieldsFit, Accepts, WellMade, ValidFields;
    RecordWellMade(d, map[], [], fields, depth - 1);
    var s := SchemaOf(d, Ty.Named(name), depth).value;
    FieldsExact(d, s.props, s.required, fields);
    forall j | Accepts(s, j) ensures Validate(d, j, Ty.Named(name)) <==> j.JObj? && ValidFields(d, j, fields) {
      AcceptedObject(s, j);
      RecordValid(d, j, name);
    }
  }

  lemma AcceptedObject(s: Schema, j: Json)
    requires s.Record? && Accepts(s, j)
    ensures j.JObj?
  {
  }

  lemma RecordValid(d: Decls, j: Json, name: string)
    requires name in d.records && name !in d.enums && j.JObj?
    ensures Validate(d, j, Ty.Named(name)) <==> ValidFields(d, j, d.records[name])
  {
    hide ValidFields;
  }

  // ---------- an object schema against the variants of an enum ----------

  /** What the schema accepts as discriminator names a variant, and it fits the
      fields of that variant. */
  ghost predicate TagFits(d: Decls, props: map<string, Schema>, required: seq<string>, x: Json, variants: seq<Variant>)
  {
    && x.JStr?
    && var i := FindVariant(variants, x.s);
       i < |variants| && TaggedFit(d, props, required, x, variants[i].fields)
  }

  ghost predicate TaggedFit(d: Decls, props: map<string, Schema>, required: seq<string>, x: Json, fields: seq<Field>) {
    forall m :: 0 <= m < |fields| ==>
                  if fields[m].name == KIND then Validate(d, x, fields[m].ty)
                  else FieldFits(d, props, required, fields[m])
  }

  ghost predicate EnumFits(d: Decls, props: map<string, Schema>, required: seq<string>, variants: seq<Variant>) {
    && KIND in required && KIND in props
    && forall x :: Accepts(props[KIND], x) ==> TagFits(d, props, required, x, variants)
  }

  ghost predicate EnumsValid(d: Decls, s: Schema, variants: seq<Variant>) {
    forall j :: Accepts(s, j) ==> ValidEnum(d, j, variants)
  }

  lemma TagValid(d: Decls, props: map<string, Schema>, required: seq<string>, j: Json, variants: seq<Variant>)
    requires Accepts(Record(props, required), j) && EnumFits(d, props, required, variants)
    ensures ValidEnum(d, j, variants)
  {
    hide Validate, Optional;
    var x := j.members[KIND];
    assert TagFits(d, props, required, x, variants);
    var fields := variants[FindVariant(variants, x.s)].fields;
    forall k | 0 <= k < |fields|
      ensures if fields[k].name in j.members then Validate(d, j.members[fields[k].name], fields[k].ty)
              else Optional(fields[k])
    {
      if fields[k].name != KIND { assert FieldFits(d, props, required, fields[k]); }
    }
  }

  /** The least object tagged `x`, and the same with one more member as given. */
  lemma TaggedLeast(props: map<string, Schema>, required: seq<string>, x: Json, n: string, v: Json)
    requires WellMade(Record(props, required)) && KIND in props && Accepts(props[KIND], x)
    requires n in props ==> Accepts(props[n], v)
    ensures Accepts(Record(props, required), JObj(Least(props, required)[KIND := x]))
    ensures n != KIND ==> Accepts(Record(props, required), JObj(Least(props, required)[KIND := x][n := v]))
  {
    hide Sample, WellMade, Accepts;
    LeastWith(props, required, KIND, x);
    var j := Least(props, required)[KIND := x];
    RecordAccepts(props, required, j);
    if n != KIND { RecordAccepts(props, required, j[n := v]); }
  }

  /** The least object tagged `x` stays valid with any further member the schema
      allows. */
  ghost predicate MembersValid(d: Decls, props: map<string, Schema>, required: seq<string>, x: Json, fields: seq<Field>)
  {
    forall n, v :: n != KIND && (n in props ==> Accepts(props[n], v))
      ==> MemberValid(d, props, required, x, fields, n, v)
  }

  ghost predicate MemberValid(d: Decls, props: map<string, Schema>, required: seq<string>, x: Json, fields: seq<Field>,
      n: string, v: Json)
  {
    ValidFields(d, JObj(Least(props, required)[KIND := x][n := v]), fields)
  }

  lemma ValidTagFits(d: Decls, props: map<string, Schema>, required: seq<string>, x: Json, variants: seq<Variant>)
    requires WellMade(Record(props, required)) && KIND in props && Accepts(props[KIND], x)
    requires EnumsValid(d, Record(props, required), variants)
    ensures TagFits(d, props, required, x, variants)
  {
    hide Accepts, Validate, WellMade, Optional, Sample, ValidFields, TaggedFit;
    TaggedLeast(props, required, x, KIND, x);
    assert ValidEnum(d, JObj(Least(props, required)[KIND := x]), variants);
    var fields := variants[FindVariant(variants, x.s)].fields;
    forall n, v | n != KIND && (n in props ==> Accepts(props[n], v))
      ensures MemberValid(d, props, required, x, fields, n, v)
    {
      TaggedLeast(props, required, x, n, v);
      assert ValidEnum(d, JObj(Least(props, required)[KIND := x][n := v]), variants);
    }
    ValidTagged(d, props, required, x, fields);
  }

  lemma ValidTagged(d: Decls, props: map<string, Schema>, required: seq<string>, x: Json, fields: seq<Field>)
    requires ValidFields(d, JObj(Least(props, required)[KIND := x]), fields)
    requires MembersValid(d, props, required, x, fields)
    ensures TaggedFit(d, props, required, x, fields)
  {
    hide Accepts, Validate, Optional, Sample, FieldFits, TaggedFit;
    forall m | 0 <= m < |fields|
      ensures if fields[m].name == KIND then Validate(d, x, fields[m].ty) else FieldFits(d, props, required, fields[m])
    {
      if fields[m].name != KIND { ValidTaggedField(d, props, required, x, fields, m); }
    }
    TaggedAll(d, props, required, x, fields);
  }

  lemma TaggedAll(d: Decls, props: map<string, Schema>, required: seq<string>, x: Json, fields: seq<Field>)
    requires forall m :: 0 <= m < |fields| ==>
                           if fields[m].name == KIND then Validate(d, x, fields[m].ty)
                           else FieldFits(d, props, required, fields[m])
    ensures TaggedFit(d, props, required, x, fields)
  {
  }

  lemma ValidTaggedField(d: Decls, props: map<string, Schema>, required: seq<string>, x: Json, fields: seq<Field>,
      m: nat)
    requires m < |fields| && fields[m].name != KIND && ValidFields(d, JObj(Least(props, required)[KIND := x]), fields)
    requires MembersValid(d, props, required, x, fields)
    ensures FieldFits(d, props, required, fields[m])
  {
    hide Accepts, Validate, Optional, Sample;
    var f := fields[m];
    assert f.name in required || Optional(f);
    forall v | f.name in props ==> Accepts(props[f.name], v) ensures Validate(d, v, f.ty) {
      assert MemberValid(d, props, required, x, fields, f.name, v);
      var j := JObj(Least(props, required)[KIND := x][f.name := v]);
      assert ValidFields(d, j, fields) && j.members[f.name] == v;
    }
  }

  /** All objects the schema accepts are valid for the enum, exactly when it asks
      for a discriminator and fits whichever variant that may name. */
  lemma TagsExact(d: Decls, props: map<string, Schema>, required: seq<string>, variants: seq<Variant>)
    requires WellMade(Record(props, required))
    ensures EnumsValid(d, Record(props, required), variants) <==> EnumFits(d, props, required, variants)
  {
    hide ValidEnum, WellMade, Accepts, TagFits, Sample;
    if EnumFits(d, props, required, variants) {
      forall j | Accepts(Record(props, required), j) ensures ValidEnum(d, j, variants) {
        TagValid(d, props, required, j, variants);
      }
    }
    if EnumsValid(d, Record(props, required), variants) {
      LeastAccepted(props, required);
      assert KIND in Least(props, required) by { EnumTagged(d, JObj(Least(props, required)), variants); }
      forall x | Accepts(props[KIND], x) ensures TagFits(d, props, required, x, variants) {
        ValidTagFits(d, props, required, x, variants);
      }
    }
  }

  lemma EnumTagged(d: Decls, j: Json, variants: seq<Variant>)
    requires ValidEnum(d, j, variants) && j.JObj?
    ensures KIND in j.members
  {
  }

  lemma EnumValid(d: Decls, j: Json, name: string)
    requires name in d.enums && !j.JNull?
    ensures Validate(d, j, Ty.Named(name)) <==> ValidEnum(d, j, d.enums[name])
  {
    hide ValidEnum;
  }

  /** Enums of unit variants: exactly when there are any. */
  lemma UnitEnumExact(d: Decls, name: string, depth: nat)
    requires name in d.enums && name !in d.records && AllUnit(d.enums[name]) && depth > 0
    ensures SchemaOf(d, Ty.Named(name), depth) == Some(Enumeration(VariantNames(d.enums[name])))
    ensures Included(d, Enumeration(VariantNames(d.enums[name])), Ty.Named(name)) <==> |d.enums[name]| > 0
  {
    var variants := d.enums[name];
    var s := Enumeration(VariantNames(variants));
    if |variants| > 0 {
      forall j | Accepts(s, j) ensures Validate(d, j, Ty.Named(name)) {
        var i :| 0 <= i < |variants| && VariantNames(variants)[i] == j.s;
        assert variants[i].name == j.s && |variants[i].fields| == 0;
      }
    } else {
      assert Accepts(s, JStr("")) && !Validate(d, JStr(""), Ty.Named(name));
    }
  }

  /** Enums with payloads: exactly when every branch fits the variants its
      discriminator may name. */
  lemma EnumExact(d: Decls, name: string, depth: nat)
    requires name in d.enums && name !in d.records && !AllUnit(d.enums[name])
    requires SchemaOf(d, Ty.Named(name), depth).Some?
    ensures var s := SchemaOf(d, Ty.Named(name), depth).value;
            && s.AnyOf? && |s.branches| == |d.enums[name]|
            && (forall i :: 0 <= i < |s.branches| ==> s.branches[i].Record?)
            && (Included(d, s, Ty.Named(name)) <==>
                forall i :: 0 <= i < |s.branches| ==>
                              EnumFits(d, s.branches[i].props, s.branches[i].required, d.enums[name]))
  {
    var variants := d.enums[name];
    hide Branches, Accepts, WellMade, ValidEnum, EnumFits, RecordSchema;
    var branches := Branches(d, variants, depth - 1).value;
    BranchesWellMade(d, variants, depth - 1);
    BranchesRecords(d, variants, depth - 1);
    forall i | 0 <= i < |branches|
      ensures EnumsValid(d, branches[i], variants)
              <==> EnumFits(d, branches[i].props, branches[i].required, variants)
    {
      TagsExact(d, branches[i].props, branches[i].required, variants);
    }
    AnyOfIncluded(d, branches, name);
  }

  lemma BranchesRecords(d: Decls, variants: seq<Variant>, depth: nat)
    requires Branches(d, variants, depth).Some?
    ensures forall i :: 0 <= i < |variants| ==> Branches(d, variants, depth).value[i].Record?
  {
    hide Properties;
  }

  lemma AnyOfIncluded(d: Decls, branches: seq<Schema>, name: string)
    requires name in d.enums && forall i :: 0 <= i < |branches| ==> branches[i].Record?
    ensures Included(d, AnyOf(branches), Ty.Named(name)) <==>
            forall i :: 0 <= i < |branches| ==> EnumsValid(d, branches[i], d.enums[name])
  {
    hide Validate, ValidEnum;
    forall i, j | 0 <= i < |branches| && Accepts(branches[i], j)
      ensures Accepts(AnyOf(branches), j) && (Validate(d, j, Ty.Named(name)) <==> ValidEnum(d, j, d.enums[name]))
    {
      AcceptedObject(branches[i], j);
      EnumValid(d, j, name);
    }
  }

  /** A name declared as a record and as an enum: the schema describes the
      record, the validator checks the enum, and they agree exactly when the
      record asks for a discriminator and fits whichever variant that names. */
  lemma SharedNameExact(d: Decls, name: string, depth: nat)
    requires name in d.records && name in d.enums && SchemaOf(d, Ty.Named(name), depth).Some?
    ensures var s := SchemaOf(d, Ty.Named(name), depth).value;
            s.Record? && (Included(d, s, Ty.Named(name)) <==> EnumFits(d, s.props, s.required, d.enums[name]))
  {
    hide RecordSchema, EnumFits, Accepts, WellMade, ValidEnum;
    RecordWellMade(d, map[], [], d.records[name], depth - 1);
    var s := SchemaOf(d, Ty.Named(name), depth).value;
    TagsExact(d, s.props, s.required, d.enums[name]);
    forall j | Accepts(s, j) ensures Validate(d, j, Ty.Named(name)) <==> ValidEnum(d, j, d.enums[name]) {
      AcceptedObject(s, j);
      EnumValid(d, j, name);
    }
  }

  // ---------- lists and options ----------

  lemma ListExact(d: Decls, items: Schema, elem: Ty)
    ensures Included(d, Array(items), ListOf(elem)) <==> Included(d, items, elem)
  {
    hide Accepts, Validate;
    if Included(d, items, elem) {
      forall j | Accepts(Array(items), j) ensures Validate(d, j, ListOf(elem)) { ListValid(d, j, items, elem); }
    }
    if Included(d, Array(items), ListOf(elem)) {
      forall v | Accepts(items, v) ensures Validate(d, v, elem) {
        OneElement(d, v, items, elem);
        assert Accepts(Array(items), JArr([v]));
      }
    }
  }

  lemma ListValid(d: Decls, j: Json, items: Schema, elem: Ty)
    requires Accepts(Array(items), j) && Included(d, items, elem)
    ensures Validate(d, j, ListOf(elem))
  {
  }

  lemma OneElement(d: Decls, v: Json, items: Schema, elem: Ty)
    ensures Accepts(Array(items), JArr([v])) <==> Accepts(items, v)
    ensures Validate(d, JArr([v]), ListOf(elem)) <==> Validate(d, v, elem)
  {
    assert [v][0] == v;
  }

  lemma OptionExact(d: Decls, s: Schema, inner: Ty)
    ensures Included(d, s, OptionOf(inner)) <==> inner.OptionOf? || Included(d, s, inner)
  {
    if !inner.OptionOf? {
      assert forall j :: Validate(d, j, OptionOf(inner)) <==> Validate(d, j, inner);
    } else {
      assert forall j :: Validate(d, j, OptionOf(inner));
    }
  }

  // ---------- a payload field called `kind` ----------

  /** The branch of a variant. */
  function BranchSchema(d: Decls, v: Variant, depth: nat): Option<Schema> {
    RecordSchema(d, map[KIND := Const(v.name)], [KIND], v.fields, depth)
  }

  lemma BranchParts(d: Decls, v: Variant, depth: nat, m: nat)
    requires DistinctFields(v.fields) && BranchSchema(d, v, depth).Some? && m < |v.fields|
    ensures var s := BranchSchema(d, v, depth).value; var f := v.fields[m];
            && s.Record? && KIND in s.required && (f.name in s.required || Optional(f))
            && f.name in s.props && SchemaOf(d, f.ty, depth) == Some(s.props[f.name])
            && (FieldFits(d, s.props, s.required, f) <==> Included(d, s.props[f.name], f.ty))
  {
    hide Properties, SchemaOf, Included, Optional, DistinctFields;
    PropertiesAt(d, map[KIND := Const(v.name)], v.fields, depth, m);
    if !Optional(v.fields[m]) { RequiredAt(v.fields, m); }
  }

  lemma ConstAccepts(name: string, x: Json)
    ensures Accepts(Const(name), x) <==> x == JStr(name)
  {
  }

  /** Without such a field the discriminator is the variant's own name, and the
      branch fits exactly when every field's schema does. */
  lemma PlainBranchExact(d: Decls, variants: seq<Variant>, i: nat, depth: nat)
    requires DistinctVariants(variants) && i < |variants| && NoKind(variants[i].fields)
    requires DistinctFields(variants[i].fields) && BranchSchema(d, variants[i], depth).Some?
    ensures var v := variants[i]; var s := BranchSchema(d, v, depth).value;
            && s.Record?
            && (forall m :: 0 <= m < |v.fields| ==> v.fields[m].name in s.props)
            && (EnumFits(d, s.props, s.required, variants) <==>
                forall m :: 0 <= m < |v.fields| ==> Included(d, s.props[v.fields[m].name], v.fields[m].ty))
  {
    var v := variants[i];
    var s := BranchSchema(d, v, depth).value;
    assert s.Record? && KIND in s.required by { hide Properties, Required; }
    assert KIND in s.props && s.props[KIND] == Const(v.name) by {
      hide Required;
      PropertiesKeep(d, map[KIND := Const(v.name)], v.fields, depth, KIND);
    }
    FindIs(variants, i);
    hide BranchSchema, Included, FieldFits, Accepts, DistinctFields, DistinctVariants;
    forall m | 0 <= m < |v.fields|
      ensures v.fields[m].name in s.props
      ensures FieldFits(d, s.props, s.required, v.fields[m]) <==> Included(d, s.props[v.fields[m].name], v.fields[m].ty)
    {
      BranchParts(d, v, depth, m);
    }
    forall x ensures Accepts(s.props[KIND], x) <==> x == JStr(v.name) { ConstAccepts(v.name, x); }
    assert EnumFits(d, s.props, s.required, variants) <==> TagFits(d, s.props, s.required, JStr(v.name), variants);
  }

  /** The schema accepts nothing but this name. */
  ghost predicate OnlyName(s: Schema, name: string) {
    forall x :: Accepts(s, x) ==> x == JStr(name)
  }

  /** Such a field takes the place of the discriminator in the schema.  When its
      type and those of the other fields agree by themselves, the branch fits
      if the field allows nothing but the variant's own name, and only if it
      allows nothing but names of variants. */
  lemma KindBranch(d: Decls, variants: seq<Variant>, i: nat, k: nat, depth: nat)
    requires DistinctVariants(variants) && i < |variants| && DistinctFields(variants[i].fields)
    requires k < |variants[i].fields| && variants[i].fields[k].name == KIND
    requires BranchSchema(d, variants[i], depth).Some? && SchemaOf(d, variants[i].fields[k].ty, depth).Some?
    requires forall m :: 0 <= m < |variants[i].fields| ==>
                           var ty := variants[i].fields[m].ty;
                           SchemaOf(d, ty, depth).Some? ==> Included(d, SchemaOf(d, ty, depth).value, ty)
    ensures var s := BranchSchema(d, variants[i], depth).value;
            var kind := SchemaOf(d, variants[i].fields[k].ty, depth).value;
            && s.Record?
            && (OnlyName(kind, variants[i].name) ==> EnumFits(d, s.props, s.required, variants))
            && (EnumFits(d, s.props, s.required, variants)
                ==> forall x :: Accepts(kind, x) ==> x.JStr? && FindVariant(variants, x.s) < |variants|)
  {
    var v := variants[i];
    var s := BranchSchema(d, v, depth).value;
    BranchParts(d, v, depth, k);
    FindIs(variants, i);
    hide BranchSchema, Included, FieldFits, Accepts, DistinctFields, DistinctVariants, SchemaOf;
    forall m | 0 <= m < |v.fields| ensures FieldFits(d, s.props, s.required, v.fields[m]) {
      BranchParts(d, v, depth, m);
    }
    forall x | Accepts(s.props[KIND], x) && x == JStr(v.name) ensures TagFits(d, s.props, s.required, x, variants) {
      forall m | 0 <= m < |v.fields| && v.fields[m].name == KIND ensures Validate(d, x, v.fields[m].ty) {
        BranchParts(d, v, depth, m);
        IncludedAt(d, s.props[KIND], v.fields[m].ty, x);
      }
    }
  }

  lemma IncludedAt(d: Decls, s: Schema, ty: Ty, x: Json)
    requires Included(d, s, ty) && Accepts(s, x)
    ensures Validate(d, x, ty)
  {
  }

  /** The names a value of this type may be, where the type is a unit enum. */
  function KindNames(d: Decls, ty: Ty): Option<seq<string>> {
    match ty
    case OptionOf(inner) => KindNames(d, inner)
    case Named(name) =>
      if name !in d.records && name in d.enums && AllUnit(d.enums[name]) && |d.enums[name]| > 0
      then Some(VariantNames(d.enums[name]))
      else None
    case _ => None
  }

  lemma {:induction false} KindNamesSchema(d: Decls, ty: Ty, depth: nat)
    requires SchemaOf(d, ty, depth).Some? && KindNames(d, ty).Some?
    ensures SchemaOf(d, ty, depth) == Some(Enumeration(KindNames(d, ty).value)) && |KindNames(d, ty).value| > 0
  {
    hide RecordSchema, Branches, AllUnit;
    if ty.OptionOf? { KindNamesSchema(d, ty.inner, depth); }
  }

  function Longest(variants: seq<Variant>): nat {
    if |variants| == 0 then 0
    else
      var rest := Longest(variants[1..]);
      if |variants[0].name| > rest then |variants[0].name| else rest
  }

  /** A string that names no variant. */
  lemma {:induction false} LongestIs(variants: seq<Variant>, n: string)
    requires |n| > Longest(variants)
    ensures FindVariant(variants, n) == |variants|
    decreases |variants|
  {
    if |variants| > 0 { LongestIs(variants[1..], n); }
  }

  /** Any other type allows something that names no variant. */
  lemma {:induction false} OffNames(d: Decls, ty: Ty, depth: nat, variants: seq<Variant>) returns (x: Json)
    requires SchemaOf(d, ty, depth).Some? && KindNames(d, ty).None?
    ensures Accepts(SchemaOf(d, ty, depth).value, x)
    ensures !(x.JStr? && FindVariant(variants, x.s) < |variants|)
  {
    var s := SchemaOf(d, ty, depth).value;
    var strange := seq(Longest(variants) + 1, _ => 'x');
    LongestIs(variants, strange);
    hide FindVariant, Longest;
    SchemaWellMade(d, ty, depth);
    SampleAccepted(s);
    x := Sample(s);
    match ty
    case OptionOf(inner) => x := OffNames(d, inner, depth, variants);
    case StringTy => x := JStr(strange);
    case Named(name) =>
      hide Properties, Branches, Sample;
      if name in d.records {
        SampleOfRecord(s);
      } else if name in d.enums && !AllUnit(d.enums[name]) {
        BranchesRecords(d, d.enums[name], depth - 1);
        SampleOfRecords(s);
      } else {
        x := JStr(strange);
      }
    case _ =>
  }

  lemma SampleOfRecord(s: Schema)
    requires s.Record?
    ensures Sample(s).JObj?
  {
  }

  lemma SampleOfRecords(s: Schema)
    requires s.AnyOf? && |s.branches| > 0 && s.branches[0].Record?
    ensures Sample(s).JObj?
  {
    SampleOfRecord(s.branches[0]);
  }

  /** The validator lets anything through as a value of this type. */
  predicate Unchecked(d: Decls, ty: Ty) {
    var t := Strip(ty);
    t.OptionOf? || (t.Named? && t.name !in d.enums && t.name !in d.records)
  }

  lemma UncheckedExact(d: Decls, ty: Ty)
    ensures (forall v :: Validate(d, v, ty)) <==> Unchecked(d, ty)
  {
    hide ValidFields;
    if !Unchecked(d, ty) { assert !Validate(d, if Strip(ty).BoolTy? then JNum(0.0) else JBool(true), ty); }
  }

  /** The first field of this name, or the number of fields. */
  function FindField(fields: seq<Field>, name: string): (k: nat)
    ensures k <= |fields| && (k < |fields| ==> fields[k].name == name)
    ensures forall i :: 0 <= i < k ==> fields[i].name != name
  {
    if |fields| == 0 || fields[0].name == name then 0 else 1 + FindField(fields[1..], name)
  }

  /** What the fields `gs` of one variant let through is valid for the fields `fs`
      of another that the discriminator names: a field of both by its types, and
      a field of the second alone only if it may be missing and is not checked. */
  ghost predicate Covers(d: Decls, gs: seq<Field>, fs: seq<Field>, kind: string, depth: nat) {
    forall m :: 0 <= m < |fs| ==>
                  if fs[m].name == KIND then Validate(d, JStr(kind), fs[m].ty) else CoversField(d, gs, fs[m], depth)
  }

  ghost predicate CoversField(d: Decls, gs: seq<Field>, f: Field, depth: nat) {
    var k := FindField(gs, f.name);
    if k == |gs| then Optional(f) && Unchecked(d, f.ty)
    else
      && (Optional(gs[k]) ==> Optional(f))
      && SchemaOf(d, gs[k].ty, depth).Some? && Included(d, SchemaOf(d, gs[k].ty, depth).value, f.ty)
  }

  lemma {:induction false} PropertiesOnly(d: Decls, base: map<string, Schema>, fields: seq<Field>, depth: nat,
      n: string)
    requires Properties(d, base, fields, depth).Some? && n in Properties(d, base, fields, depth).value
    ensures n in base || exists k :: 0 <= k < |fields| && fields[k].name == n
    decreases |fields|
  {
    hide SchemaOf;
    var last := |fields| - 1;
    if |fields| > 0 && fields[last].name != n {
      PropertiesOnly(d, base, fields[..last], depth, n);
      if k :| 0 <= k < last && fields[..last][k].name == n { assert fields[k].name == n; }
    }
  }

  lemma {:induction false} RequiredOnly(fields: seq<Field>, n: string)
    requires n in Required(fields)
    ensures exists k :: 0 <= k < |fields| && fields[k].name == n && !Optional(fields[k])
    decreases |fields|
  {
    hide Optional;
    var last := |fields| - 1;
    if |fields| > 0 && !(fields[last].name == n && !Optional(fields[last])) {
      RequiredOnly(fields[..last], n);
      var k :| 0 <= k < last && fields[..last][k].name == n && !Optional(fields[..last][k]);
      assert fields[k].name == n && !Optional(fields[k]);
    }
  }

  /** Whether a branch fits a field, in terms of the declared fields. */
  lemma FieldFitsDeclared(d: Decls, v: Variant, depth: nat, f: Field)
    requires DistinctFields(v.fields) && BranchSchema(d, v, depth).Some? && f.name != KIND
    ensures var s := BranchSchema(d, v, depth).value;
            s.Record? && (FieldFits(d, s.props, s.required, f) <==> CoversField(d, v.fields, f, depth))
  {
    var s := BranchSchema(d, v, depth).value;
    var k := FindField(v.fields, f.name);
    assert s.Record? by { hide Properties, Required; }
    UncheckedExact(d, f.ty);
    if k < |v.fields| {
      BranchParts(d, v, depth, k);
      BranchRequires(d, v, depth, k);
    } else {
      BranchLacks(d, v, depth, f.name);
    }
    hide BranchSchema, Included, Validate, Unchecked, Optional, SchemaOf, FindField;
  }

  lemma BranchRequires(d: Decls, v: Variant, depth: nat, k: nat)
    requires DistinctFields(v.fields) && BranchSchema(d, v, depth).Some? && k < |v.fields| && v.fields[k].name != KIND
    ensures var s := BranchSchema(d, v, depth).value;
            s.Record? && (v.fields[k].name in s.required <==> !Optional(v.fields[k]))
  {
    hide Properties, Optional;
    if v.fields[k].name in Required(v.fields) { RequiredOnly(v.fields, v.fields[k].name); }
    if !Optional(v.fields[k]) { RequiredAt(v.fields, k); }
  }

  lemma BranchLacks(d: Decls, v: Variant, depth: nat, n: string)
    requires BranchSchema(d, v, depth).Some? && n != KIND && FindField(v.fields, n) == |v.fields|
    ensures var s := BranchSchema(d, v, depth).value; s.Record? && n !in s.props && n !in s.required
  {
    hide Properties, Optional;
    var base := map[KIND := Const(v.name)];
    if n in Properties(d, base, v.fields, depth).value { PropertiesOnly(d, base, v.fields, depth, n); }
    if n in Required(v.fields) { RequiredOnly(v.fields, n); }
  }

  lemma CoversExact(d: Decls, v: Variant, depth: nat, fs: seq<Field>, kind: string)
    requires DistinctFields(v.fields) && BranchSchema(d, v, depth).Some?
    ensures var s := BranchSchema(d, v, depth).value;
            s.Record? && (TaggedFit(d, s.props, s.required, JStr(kind), fs) <==> Covers(d, v.fields, fs, kind, depth))
  {
    hide FieldFits, CoversField, Validate, DistinctFields;
    var s := BranchSchema(d, v, depth).value;
    assert s.Record? by { hide Properties, Required; }
    hide BranchSchema;
    forall m | 0 <= m < |fs| && fs[m].name != KIND
      ensures FieldFits(d, s.props, s.required, fs[m]) <==> CoversField(d, v.fields, fs[m], depth)
    {
      FieldFitsDeclared(d, v, depth, fs[m]);
    }
  }

  /** Exactly, for any number of variants: the type of the field is a unit enum
      all of whose names are names of variants, and the branch covers those of
      them that are not its own. */
  lemma KindBranchExact(d: Decls, variants: seq<Variant>, i: nat, k: nat, depth: nat)
    requires DistinctVariants(variants) && i < |variants| && DistinctFields(variants[i].fields)
    requires k < |variants[i].fields| && variants[i].fields[k].name == KIND
    requires BranchSchema(d, variants[i], depth).Some?
    requires forall m :: 0 <= m < |variants[i].fields| ==>
                           var ty := variants[i].fields[m].ty;
                           SchemaOf(d, ty, depth).Some? ==> Included(d, SchemaOf(d, ty, depth).value, ty)
    ensures var s := BranchSchema(d, variants[i], depth).value;
            var names := KindNames(d, variants[i].fields[k].ty);
            && s.Record?
            && (EnumFits(d, s.props, s.required, variants) <==>
                names.Some? && forall n :: n in names.value ==> NameFits(d, variants, i, n, depth))
  {
    var v := variants[i];
    var s := BranchSchema(d, v, depth).value;
    var ty := v.fields[k].ty;
    BranchParts(d, v, depth, k);
    var kind := s.props[KIND];
    hide BranchSchema, Included, Accepts, DistinctFields, SchemaOf, KindNames, NameFits, TagFits;
    KindBranch(d, variants, i, k, depth);
    if KindNames(d, ty).None? {
      var x := OffNames(d, ty, depth, variants);
      assert !TagFits(d, s.props, s.required, x, variants) by { OffTag(d, s, x, variants); }
    } else {
      var names := KindNames(d, ty).value;
      KindNamesSchema(d, ty, depth);
      forall n ensures Accepts(kind, JStr(n)) <==> n in names { NamesAccept(names, n); }
      forall x | Accepts(kind, x) ensures x.JStr? { NamesOnly(names, x); }
      forall n | n in names
        ensures TagFits(d, s.props, s.required, JStr(n), variants) <==> NameFits(d, variants, i, n, depth)
      {
        NameFitsTag(d, variants, i, k, n, depth);
      }
    }
  }

  /** This name as discriminator of branch `i`. */
  ghost predicate NameFits(d: Decls, variants: seq<Variant>, i: nat, n: string, depth: nat)
    requires i < |variants|
  {
    var j := FindVariant(variants, n);
    j < |variants| && (j == i || Covers(d, variants[i].fields, variants[j].fields, n, depth))
  }

  lemma OffTag(d: Decls, s: Schema, x: Json, variants: seq<Variant>)
    requires s.Record? && !(x.JStr? && FindVariant(variants, x.s) < |variants|)
    ensures !TagFits(d, s.props, s.required, x, variants)
  {
  }

  lemma NamesAccept(names: seq<string>, n: string)
    requires |names| > 0
    ensures Accepts(Enumeration(names), JStr(n)) <==> n in names
  {
  }

  lemma NamesOnly(names: seq<string>, x: Json)
    requires Accepts(Enumeration(names), x)
    ensures x.JStr?
  {
  }

  lemma NameFitsTag(d: Decls, variants: seq<Variant>, i: nat, k: nat, n: string, depth: nat)
    requires DistinctVariants(variants) && i < |variants| && DistinctFields(variants[i].fields)
    requires k < |variants[i].fields| && variants[i].fields[k].name == KIND
    requires BranchSchema(d, variants[i], depth).Some? && SchemaOf(d, variants[i].fields[k].ty, depth).Some?
    requires Accepts(SchemaOf(d, variants[i].fields[k].ty, depth).value, JStr(n))
    requires forall m :: 0 <= m < |variants[i].fields| ==>
                           var ty := variants[i].fields[m].ty;
                           SchemaOf(d, ty, depth).Some? ==> Included(d, SchemaOf(d, ty, depth).value, ty)
    ensures var s := BranchSchema(d, variants[i], depth).value;
            s.Record? && (TagFits(d, s.props, s.required, JStr(n), variants) <==> NameFits(d, variants, i, n, depth))
  {
    var v, j := variants[i], FindVariant(variants, n);
    hide Included, Accepts, DistinctFields, SchemaOf, FieldFits, BranchSchema, Covers, TaggedFit, FindVariant;
    var s := BranchSchema(d, v, depth).value;
    if j < |variants| {
      CoversExact(d, v, depth, variants[j].fields, n);
      if j == i { OwnTag(d, v, k, n, depth); }
    } else {
      CoversExact(d, v, depth, [], n);
    }
  }

  /** Its own name always fits. */
  lemma OwnTag(d: Decls, v: Variant, k: nat, n: string, depth: nat)
    requires DistinctFields(v.fields) && k < |v.fields| && v.fields[k].name == KIND
    requires BranchSchema(d, v, depth).Some? && SchemaOf(d, v.fields[k].ty, depth).Some?
    requires Accepts(SchemaOf(d, v.fields[k].ty, depth).value, JStr(n))
    requires forall m :: 0 <= m < |v.fields| ==>
                           var ty := v.fields[m].ty;
                           SchemaOf(d, ty, depth).Some? ==> Included(d, SchemaOf(d, ty, depth).value, ty)
    ensures var s := BranchSchema(d, v, depth).value;
            s.Record? && TaggedFit(d, s.props, s.required, JStr(n), v.fields)
  {
    hide Included, Accepts, SchemaOf, FieldFits, BranchSchema;
    BranchParts(d, v, depth, k);
    var s := BranchSchema(d, v, depth).value;
    forall m | 0 <= m < |v.fields|
      ensures if v.fields[m].name == KIND then Validate(d, JStr(n), v.fields[m].ty)
              else FieldFits(d, s.props, s.required, v.fields[m])
    {
      BranchParts(d, v, depth, m);
      if v.fields[m].name == KIND { IncludedAt(d, s.props[KIND], v.fields[m].ty, JStr(n)); }
    }
  }

  /** With one variant this is exact: agreement if and only if the field allows
      nothing but the variant's name. */
  lemma KindFieldExact(d: Decls, name: string, k: nat, depth: nat)
    requires name in d.enums && name !in d.records && |d.enums[name]| == 1
    requires var fields := d.enums[name][0].fields;
             && DistinctFields(fields) && k < |fields| && fields[k].name == KIND
             && SchemaOf(d, fields[k].ty, depth).Some?
             && forall m :: 0 <= m < |fields| && SchemaOf(d, fields[m].ty, depth).Some? ==>
                              Included(d, SchemaOf(d, fields[m].ty, depth).value, fields[m].ty)
    requires SchemaOf(d, Ty.Named(name), depth + 1).Some?
    ensures var kind := SchemaOf(d, d.enums[name][0].fields[k].ty, depth).value;
            Included(d, SchemaOf(d, Ty.Named(name), depth + 1).value, Ty.Named(name))
            <==> OnlyName(kind, d.enums[name][0].name)
  {
    var variants := d.enums[name];
    var s := SchemaOf(d, Ty.Named(name), depth + 1).value;
    assert !AllUnit(variants);
    EnumExact(d, name, depth + 1);
    assert BranchSchema(d, variants[0], depth) == Some(s.branches[0]) by {
      hide RecordSchema;
      BranchAt(d, variants, depth, 0);
    }
    var branch := s.branches[0];
    var kind := SchemaOf(d, variants[0].fields[k].ty, depth).value;
    hide BranchSchema, Included, EnumFits, Accepts, SchemaOf;
    KindBranch(d, variants, 0, k, depth);
    assert |s.branches| == 1;
    assert Included(d, s, Ty.Named(name)) <==> EnumFits(d, branch.props, branch.required, variants);
    if EnumFits(d, branch.props, branch.required, variants) {
      forall x | Accepts(kind, x) ensures x == JStr(variants[0].name) {
        assert FindVariant(variants, x.s) == 0;
      }
    }
  }

  /** A payload field called `kind` takes the place of the discriminator in the
      schema. */
  lemma KindField()
    ensures var v := [Variant("A", [Field(KIND, IntTy, false)])];
            var d := Decls(map["E" := v], map[]);
            var j := JObj(map[KIND := JNum(3.0)]);
            && SchemaOf(d, Ty.Named("E"), 1).Some? && Accepts(SchemaOf(d, Ty.Named("E"), 1).value, j)
            && !Validate(d, j, Ty.Named("E"))
  {
    var fields := [Field(KIND, IntTy, false)];
    var v := [Variant("A", fields)];
    var d := Decls(map["E" := v], map[]);
    var branch := Record(map[KIND := Integer], [KIND] + [KIND]);
    var j := JObj(map[KIND := JNum(3.0)]);
    LiteralBranch(d);
    assert |v[0].fields| == 1 && !AllUnit(v) && [] + [branch] == [branch];
    assert v[..0] == [];
    assert Branches(d, [], 0) == Some([]);
    assert Branches(d, v, 0) == Some([] + [branch]) by {
      hide RecordSchema;
    }
    hide RecordSchema, Branches, Properties, SchemaOf;
    assert EnumSchema(d, v, 0) == Some(AnyOf([branch]));
    EnumSchemaIs(d, "E", 0);
    assert IsWhole(3.0);
    assert Accepts(Integer, JNum(3.0));
    assert forall n :: n in [KIND] + [KIND] ==> n == KIND;
    assert Accepts(branch, j);
    assert [branch][0] == branch;
  }

  lemma LiteralBranch(d: Decls)
    ensures RecordSchema(d, map[KIND := Const("A")], [KIND], [Field(KIND, IntTy, false)], 0)
            == Some(Record(map[KIND := Integer], [KIND] + [KIND]))
  {
    var fields := [Field(KIND, IntTy, false)];
    var base := map[KIND := Const("A")];
    assert fields[..0] == [];
    assert Properties(d, base, [], 0) == Some(base);
    assert base[KIND := Integer] == map[KIND := Integer];
    assert Properties(d, base, fields, 0) == Some(map[KIND := Integer]);
    assert Required([]) == [] && !Optional(fields[0]);
    assert Required(fields) == [] + [KIND] == [KIND];
  }

  lemma EnumSchemaIs(d: Decls, name: string, depth: nat)
    requires name in d.enums && name !in d.records
    ensures SchemaOf(d, Ty.Named(name), depth + 1) == EnumSchema(d, d.enums[name], depth)
  {
    hide EnumSchema;
  }

  /** One name for a record and an enum: the schema describes the record, the
      validator checks the enum. */
  lemma SharedName()
    ensures var d := Decls(map["T" := [Variant("A", [])]], map["T" := []]);
            && SchemaOf(d, Ty.Named("T"), 1) == Some(Record(map[], []))
            && Accepts(Record(map[], []), JObj(map[])) && !Validate(d, JObj(map[]), Ty.Named("T"))
  {
    var d := Decls(map["T" := [Variant("A", [])]], map["T" := []]);
    assert Properties(d, map[], [], 0) == Some(map[]);
    assert Required([]) == [] && [] + Required([]) == [];
    assert RecordSchema(d, map[], [], [], 0) == Some(Record(map[], []));
  }
}
