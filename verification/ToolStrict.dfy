/** What a generated schema accepts, said in the terms of the declarations alone. */
module ToolStrict {
  import opened Options
  import opened ToolArgs
  import opened ToolAgreement

  /** A value of exactly the declared shape: no null, units by name, payloads under
      their `kind`, and a string for a name nobody declared. */
  ghost predicate Strict(d: Decls, j: Json, ty: Ty)
    decreases j, 1, ty
  {
    match ty
    case IntTy => j.JNum? && j.r.Floor as real == j.r
    case FloatTy => j.JNum?
    case StringTy => j.JStr?
    case BoolTy => j.JBool?
    case OptionOf(inner) => Strict(d, j, inner)
    case ListOf(elem) => j.JArr? && forall i :: 0 <= i < |j.items| ==> Strict(d, j.items[i], elem)
    case Named(name) =>
      if name in d.records then j.JObj? && StrictFields(d, j, d.records[name])
      else if name in d.enums then StrictVariant(d, j, d.enums[name])
      else j.JStr?
  }

  ghost predicate StrictVariant(d: Decls, j: Json, variants: seq<Variant>)
    decreases j, 0, 1
  {
    if forall i :: 0 <= i < |variants| ==> variants[i].fields == [] then
      j.JStr? && exists i :: 0 <= i < |variants| && variants[i].name == j.s
    else
      j.JObj? && KIND in j.members
      && exists i :: 0 <= i < |variants| && j.members[KIND] == JStr(variants[i].name)
                     && StrictFields(d, j, variants[i].fields)
  }

  ghost predicate StrictFields(d: Decls, j: Json, fields: seq<Field>)
    requires j.JObj?
    decreases j, 0, 0
  {
    forall k :: 0 <= k < |fields| ==>
                  if fields[k].name in j.members then Strict(d, j.members[fields[k].name], fields[k].ty)
                  else fields[k].ty.OptionOf? || fields[k].hasDefault
  }

  // ---------- properties and required names ----------

  lemma {:induction false} PropertiesOnly(d: Decls, base: map<string, Schema>, fields: seq<Field>, depth: nat,
      n: string)
    requires Properties(d, base, fields, depth).Some? && n in Properties(d, base, fields, depth).value
    ensures n in base || exists k :: 0 <= k < |fields| && fields[k].name == n
    decreases |fields|
  {
    hide SchemaOf;
    if |fields| > 0 {
      var m := |fields| - 1;
      if n != fields[m].name {
        PropertiesOnly(d, base, fields[..m], depth, n);
        if n !in base {
          var k :| 0 <= k < m && fields[..m][k].name == n;
          assert fields[k].name == n;
        }
      }
    }
  }

  predicate IsRequired(fields: seq<Field>, n: string) {
    exists k :: 0 <= k < |fields| && fields[k].name == n && !Optional(fields[k])
  }

  lemma {:induction false} RequiredOnly(fields: seq<Field>, n: string)
    requires n in Required(fields)
    ensures IsRequired(fields, n)
    decreases |fields|
  {
    var m := |fields| - 1;
    if !(n == fields[m].name && !Optional(fields[m])) {
      RequiredOnly(fields[..m], n);
      var k :| 0 <= k < m && fields[..m][k].name == n && !Optional(fields[..m][k]);
      assert fields[k].name == n && !Optional(fields[k]);
    }
  }

  // ---------- the schema accepts exactly that ----------

  /** A value is accepted by the schema of a type if and only if it has the declared
      shape. */
  lemma {:induction false} AcceptsExactly(d: Decls, j: Json, ty: Ty, depth: nat, s: Schema)
    requires GoodDecls(d) && SchemaOf(d, ty, depth) == Some(s)
    ensures Accepts(s, j) <==> Strict(d, j, ty)
    decreases j, 2, ty
  {
    hide GoodDecls;
    match ty
    case OptionOf(inner) => AcceptsExactly(d, j, inner, depth, s);
    case ListOf(elem) => ListExactly(d, j, elem, depth, s);
    case Named(name) => NamedExactly(d, j, name, depth, s);
    case _ =>
  }

  lemma {:induction false} ListExactly(d: Decls, j: Json, elem: Ty, depth: nat, s: Schema)
    requires GoodDecls(d) && SchemaOf(d, ListOf(elem), depth) == Some(s)
    ensures Accepts(s, j) <==> Strict(d, j, ListOf(elem))
    decreases j, 2, elem
  {
    var items := SchemaOf(d, elem, depth).value;
    assert s == Array(items);
    hide GoodDecls, SchemaOf;
    if j.JArr? {
      forall i | 0 <= i < |j.items| ensures Accepts(items, j.items[i]) <==> Strict(d, j.items[i], elem) {
        AcceptsExactly(d, j.items[i], elem, depth, items);
      }
    }
  }

  lemma {:induction false} NamedExactly(d: Decls, j: Json, name: string, depth: nat, s: Schema)
    requires GoodDecls(d) && SchemaOf(d, Ty.Named(name), depth) == Some(s)
    ensures Accepts(s, j) <==> Strict(d, j, Ty.Named(name))
    decreases j, 1, 2
  {
    if name in d.records {
      hide RecordSchema;
      FieldsExactly(d, j, map[], [], d.records[name], depth - 1, s);
      BareRecord(d, j, d.records[name], depth - 1, s);
    } else if name in d.enums {
      hide EnumSchema, StrictVariant;
      EnumExactly(d, j, d.enums[name], depth - 1, s);
    }
  }

  /** Members the schema asks for beyond the fields. */
  predicate Extra(base: map<string, Schema>, first: seq<string>, j: Json)
    requires j.JObj?
  {
    && (forall n :: n in first ==> n in j.members)
    && forall n :: n in base && n in j.members ==> Accepts(base[n], j.members[n])
  }

  lemma BareRecord(d: Decls, j: Json, fields: seq<Field>, depth: nat, s: Schema)
    requires RecordSchema(d, map[], [], fields, depth) == Some(s)
    ensures j.JObj? ==> Extra(map[], [], j)
  {
  }

  /** An object, and the inputs of a tool, are accepted if and only if the fields are
      those declared and what is asked for beyond them is there. */
  lemma {:induction false} FieldsExactly(d: Decls, j: Json, base: map<string, Schema>, first: seq<string>,
      fields: seq<Field>, depth: nat, s: Schema)
    requires GoodDecls(d) && DistinctFields(fields) && RecordSchema(d, base, first, fields, depth) == Some(s)
    requires forall k :: 0 <= k < |fields| ==> fields[k].name !in base
    ensures Accepts(s, j) <==> j.JObj? && Extra(base, first, j) && StrictFields(d, j, fields)
    decreases j, 1, 0
  {
    var props := Properties(d, base, fields, depth).value;
    assert s == Record(props, first + Required(fields));
    hide GoodDecls, RecordSchema;
    if j.JObj? {
      forall k | 0 <= k < |fields|
        ensures fields[k].name in props
        ensures fields[k].name in j.members ==>
                  (Accepts(props[fields[k].name], j.members[fields[k].name])
                   <==> Strict(d, j.members[fields[k].name], fields[k].ty))
      {
        PropertiesAt(d, base, fields, depth, k);
        if fields[k].name in j.members {
          AcceptsExactly(d, j.members[fields[k].name], fields[k].ty, depth, props[fields[k].name]);
        }
      }
      PropertyNames(d, base, fields, depth, props);
      RequiredNames(fields);
      hide Strict, Properties, Required, DistinctFields, SchemaOf;
      RecordAccepts(d, j, base, first, fields, props);
    }
  }

  ghost predicate Holds(base: map<string, Schema>, fields: seq<Field>, props: map<string, Schema>) {
    && (forall n :: n in props ==> n in base || exists k :: 0 <= k < |fields| && fields[k].name == n)
    && (forall n :: n in base ==> n in props && props[n] == base[n])
  }

  lemma PropertyNames(d: Decls, base: map<string, Schema>, fields: seq<Field>, depth: nat, props: map<string, Schema>)
    requires Properties(d, base, fields, depth) == Some(props)
    requires forall k :: 0 <= k < |fields| ==> fields[k].name !in base
    ensures Holds(base, fields, props)
  {
    hide Properties;
    forall n | n in props ensures n in base || exists k :: 0 <= k < |fields| && fields[k].name == n {
      PropertiesOnly(d, base, fields, depth, n);
    }
    forall n | n in base ensures n in props && props[n] == base[n] {
      PropertiesKeep(d, base, fields, depth, n);
    }
  }

  lemma RequiredNames(fields: seq<Field>)
    ensures forall n :: n in Required(fields) <==> IsRequired(fields, n)
  {
    forall n ensures n in Required(fields) <==> IsRequired(fields, n) {
      if n in Required(fields) { RequiredOnly(fields, n); }
      if k :| 0 <= k < |fields| && fields[k].name == n && !Optional(fields[k]) { RequiredAt(fields, k); }
    }
  }

  lemma RecordAccepts(d: Decls, j: Json, base: map<string, Schema>, first: seq<string>, fields: seq<Field>,
      props: map<string, Schema>)
    requires j.JObj? && Holds(base, fields, props)
    requires forall n :: n in Required(fields) <==> IsRequired(fields, n)
    requires forall k :: 0 <= k < |fields| ==> fields[k].name in props
    requires forall k :: 0 <= k < |fields| && fields[k].name in j.members ==>
               (Accepts(props[fields[k].name], j.members[fields[k].name])
                <==> Strict(d, j.members[fields[k].name], fields[k].ty))
    ensures Accepts(Record(props, first + Required(fields)), j) <==> Extra(base, first, j) && StrictFields(d, j, fields)
  {
    hide Strict, Required;
    var s := Record(props, first + Required(fields));
    if Extra(base, first, j) && StrictFields(d, j, fields) {
      forall n | n in first + Required(fields) ensures n in j.members {
        if n !in first {
          var k :| 0 <= k < |fields| && fields[k].name == n && !Optional(fields[k]);
        }
      }
      forall n | n in props && n in j.members ensures Accepts(props[n], j.members[n]) {
        if n !in base {
          var k :| 0 <= k < |fields| && fields[k].name == n;
        }
      }
    }
    if Accepts(s, j) {
      forall n | n in first ensures n in j.members { assert n in first + Required(fields); }
      forall k | 0 <= k < |fields|
        ensures if fields[k].name in j.members then Strict(d, j.members[fields[k].name], fields[k].ty)
                else fields[k].ty.OptionOf? || fields[k].hasDefault
      {
        assert !Optional(fields[k]) ==> fields[k].name in first + Required(fields);
      }
    }
  }

  lemma {:induction false} EnumExactly(d: Decls, j: Json, variants: seq<Variant>, depth: nat, s: Schema)
    requires GoodDecls(d) && GoodEnum(variants) && EnumSchema(d, variants, depth) == Some(s)
    ensures Accepts(s, j) <==> StrictVariant(d, j, variants)
    decreases j, 1, 1
  {
    hide GoodDecls;
    assert AllUnit(variants) <==> forall i :: 0 <= i < |variants| ==> variants[i].fields == [];
    if AllUnit(variants) {
      UnitExactly(d, j, variants);
    } else {
      var branches := Branches(d, variants, depth).value;
      assert s == AnyOf(branches);
      hide EnumSchema, Branches, RecordSchema;
      forall i | 0 <= i < |variants|
        ensures Accepts(branches[i], j)
                <==> j.JObj? && KIND in j.members && j.members[KIND] == JStr(variants[i].name)
                     && StrictFields(d, j, variants[i].fields)
      {
        BranchAt(d, variants, depth, i);
        FieldsExactly(d, j, map[KIND := Const(variants[i].name)], [KIND], variants[i].fields, depth, branches[i]);
        if j.JObj? { KindExtra(variants[i].name, j); }
      }
      hide StrictFields, GoodEnum;
      AnyExactly(branches, j);
    }
  }

  lemma AnyExactly(branches: seq<Schema>, j: Json)
    ensures Accepts(AnyOf(branches), j) <==> exists i :: 0 <= i < |branches| && Accepts(branches[i], j)
  {
  }

  lemma UnitExactly(d: Decls, j: Json, variants: seq<Variant>)
    requires |variants| > 0
    ensures Accepts(Enumeration(VariantNames(variants)), j)
            <==> j.JStr? && exists i :: 0 <= i < |variants| && variants[i].name == j.s
  {
    var names := VariantNames(variants);
    if j.JStr? {
      if i :| 0 <= i < |variants| && variants[i].name == j.s { assert names[i] == j.s; }
    }
  }

  lemma KindExtra(name: string, j: Json)
    requires j.JObj?
    ensures Extra(map[KIND := Const(name)], [KIND], j) <==> KIND in j.members && j.members[KIND] == JStr(name)
  {
  }
}
