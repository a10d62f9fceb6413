/** Tool arguments: the JSON Schema generated for a declared type, the run-time
    validation of a JSON value against that type, and its lowering to an
    expression that is then evaluated. */
module ToolArgs {
  import opened Options

  /** A type expression.  `Named` covers declared and unknown names; fields of
      the built-in enums have the empty name. */
  datatype Ty = IntTy | FloatTy | StringTy | BoolTy | OptionOf(inner: Ty) | ListOf(elem: Ty) | Named(name: string)

  datatype Field = Field(name: string, ty: Ty, hasDefault: bool)

  datatype Variant = Variant(name: string, fields: seq<Field>)

  datatype Decls = Decls(enums: map<string, seq<Variant>>, records: map<string, seq<Field>>)

  datatype Json =
    | JNull
    | JBool(b: bool)
    | JNum(r: real)
    | JStr(s: string)
    | JArr(items: seq<Json>)
    | JObj(members: map<string, Json>)

  const KIND := "kind"

  predicate IsWhole(r: real) {
    r.Floor as real == r
  }

  predicate Optional(f: Field) {
    f.ty.OptionOf? || f.hasDefault
  }

  function Strip(ty: Ty): Ty {
    if ty.OptionOf? then ty.inner else ty
  }

  /** The name under which a declaration of this type would be found. */
  function TypeName(ty: Ty): Option<string> {
    match ty
    case IntTy => Some("Int")
    case FloatTy => Some("Float")
    case StringTy => Some("String")
    case BoolTy => Some("Bool")
    case Named(name) => Some(name)
    case _ => None
  }

  // ---------- schemas ----------

  /** The keywords a generated schema uses.  An `Enumeration` without names is
      written without its `enum` keyword and so allows any string. */
  datatype Schema =
    | Integer
    | Number
    | Text
    | Boolean
    | Array(items: Schema)
    | Record(props: map<string, Schema>, required: seq<string>)
    | AnyOf(branches: seq<Schema>)
    | Enumeration(names: seq<string>)
    | Const(name: string)

  /** Validation of JSON Schema 2020-12: sections 6.1.1 to 6.1.3 and 6.5.3 of
      the validation part, 10.2.1.2, 10.3.1.2 and 10.3.2.1 of the core. */
  predicate Accepts(s: Schema, j: Json)
    decreases s
  {
    match s
    case Integer => j.JNum? && IsWhole(j.r)
    case Number => j.JNum?
    case Text => j.JStr?
    case Boolean => j.JBool?
    case Array(items) => j.JArr? && forall i :: 0 <= i < |j.items| ==> Accepts(items, j.items[i])
    case Record(props, required) =>
      && j.JObj? && (forall n :: n in required ==> n in j.members)
      && (forall n :: n in props && n in j.members ==> Accepts(props[n], j.members[n]))
    case AnyOf(branches) => exists i :: 0 <= i < |branches| && Accepts(branches[i], j)
    case Enumeration(names) => j.JStr? && (|names| > 0 ==> j.s in names)
    case Const(name) => j == JStr(name)
  }

  function Required(fields: seq<Field>): seq<string> {
    if |fields| == 0 then []
    else
      var n := |fields| - 1;
      Required(fields[..n]) + if Optional(fields[n]) then [] else [fields[n].name]
  }

  predicate AllUnit(variants: seq<Variant>) {
    forall i :: 0 <= i < |variants| ==> |variants[i].fields| == 0
  }

  function VariantNames(variants: seq<Variant>): (r: seq<string>)
    ensures |r| == |variants| && forall i :: 0 <= i < |r| ==> r[i] == variants[i].name
  {
    seq(|variants|, i requires 0 <= i < |variants| => variants[i].name)
  }

  /** The schema of a type, declarations followed at most `depth` deep. */
  function SchemaOf(d: Decls, ty: Ty, depth: nat): Option<Schema>
    decreases depth, 0, ty
  {
    match ty
    case IntTy => Some(Integer)
    case FloatTy => Some(Number)
    case StringTy => Some(Text)
    case BoolTy => Some(Boolean)
    case OptionOf(inner) => SchemaOf(d, inner, depth)
    case ListOf(elem) =>
      var items := SchemaOf(d, elem, depth);
      if items.Some? then Some(Array(items.value)) else None
    case Named(name) =>
      if name in d.records then if depth == 0 then None else RecordSchema(d, map[], [], d.records[name], depth - 1)
      else if name in d.enums then if depth == 0 then None else EnumSchema(d, d.enums[name], depth - 1)
      else Some(Text)
  }

  function RecordSchema(d: Decls, base: map<string, Schema>, required: seq<string>, fields: seq<Field>,
      depth: nat): Option<Schema>
    decreases depth, 2, |fields|
  {
    var props := Properties(d, base, fields, depth);
    if props.Some? then Some(Record(props.value, required + Required(fields))) else None
  }

  /** Properties for the fields, on top of those given: a later field replaces
      an earlier one of the same name. */
  function Properties(d: Decls, base: map<string, Schema>, fields: seq<Field>, depth: nat): Option<map<string, Schema>>
    decreases depth, 1, |fields|
  {
    if |fields| == 0 then Some(base)
    else
      var n := |fields| - 1;
      var props := Properties(d, base, fields[..n], depth);
      var last := SchemaOf(d, fields[n].ty, depth);
      if props.Some? && last.Some? then Some(props.value[fields[n].name := last.value]) else None
  }

  function EnumSchema(d: Decls, variants: seq<Variant>, depth: nat): Option<Schema>
    decreases depth, 4, |variants|
  {
    if AllUnit(variants) then Some(Enumeration(VariantNames(variants)))
    else
      var branches := Branches(d, variants, depth);
      if branches.Some? then Some(AnyOf(branches.value)) else None
  }

  function Branches(d: Decls, variants: seq<Variant>, depth: nat): (r: Option<seq<Schema>>)
    ensures r.Some? ==> |r.value| == |variants|
    decreases depth, 3, |variants|
  {
    if |variants| == 0 then Some([])
    else
      var n := |variants| - 1;
      var rest := Branches(d, variants[..n], depth);
      var last := RecordSchema(d, map[KIND := Const(variants[n].name)], [KIND], variants[n].fields, depth);
      if rest.Some? && last.Some? then Some(rest.value + [last.value]) else None
  }

  // ---------- validation ----------

  /** The first variant of this name, or the number of variants. */
  function FindVariant(variants: seq<Variant>, name: string): (i: nat)
    ensures i <= |variants| && (i < |variants| ==> variants[i].name == name)
    ensures forall k :: 0 <= k < i ==> variants[k].name != name
  {
    if |variants| == 0 || variants[0].name == name then 0 else 1 + FindVariant(variants[1..], name)
  }

  /** One `Option` is stripped; unknown names, and an `Option` inside it, are
      not checked. */
  predicate Validate(d: Decls, j: Json, ty: Ty)
    decreases j, 1
  {
    j.JNull? ||
    match Strip(ty)
    case ListOf(elem) => j.JArr? && forall i :: 0 <= i < |j.items| ==> Validate(d, j.items[i], elem)
    case IntTy => j.JNum? && IsWhole(j.r)
    case FloatTy => j.JNum?
    case StringTy => j.JStr?
    case BoolTy => j.JBool?
    case OptionOf(_) => true
    case Named(name) =>
      if name in d.enums then ValidEnum(d, j, d.enums[name])
      else name in d.records ==> j.JObj? && ValidFields(d, j, d.records[name])
  }

  predicate ValidEnum(d: Decls, j: Json, variants: seq<Variant>)
    decreases j, 0, 1
  {
    match j
    case JStr(s) => exists i :: 0 <= i < |variants| && variants[i].name == s && |variants[i].fields| == 0
    case JObj(members) =>
      && KIND in members && members[KIND].JStr?
      && var i := FindVariant(variants, members[KIND].s);
         i < |variants| && ValidFields(d, j, variants[i].fields)
    case _ => false
  }

  predicate ValidFields(d: Decls, j: Json, fields: seq<Field>)
    requires j.JObj?
    decreases j, 0, 0
  {
    forall k :: 0 <= k < |fields| ==>
                  if fields[k].name in j.members then Validate(d, j.members[fields[k].name], fields[k].ty)
                  else Optional(fields[k])
  }

  // ---------- lowering ----------

  datatype Ast =
    | NilLit
    | IntLit(n: int)
    | FloatLit(r: real)
    | StrLit(s: string)
    | BoolLit(b: bool)
    | ListLit(elems: seq<Ast>)
    | RecordLit(name: string, fields: seq<Named>)
    | AnonymousLit(members: map<string, Ast>)
    | UnitRef(enum: string, variant: string)
    | VariantCall(enum: string, variant: string, args: seq<Named>)

  datatype Named = Named(name: string, value: Ast)

  /** `None` is the nil expression: the value is dropped.  A declaration is looked
      up before the built-in types, which validation looks up first. */
  function Lower(d: Decls, j: Json, ty: Ty): Option<Ast>
    decreases j, 2, 0
  {
    var t := Strip(ty);
    if j.JNull? then Some(NilLit)
    else if t.ListOf? then if j.JArr? then Some(ListLit(LowerAll(d, j.items, t.elem))) else None
    else if TypeName(t).Some? && TypeName(t).value in d.enums then LowerEnum(d, j, TypeName(t).value)
    else if TypeName(t).Some? && TypeName(t).value in d.records then
      var name := TypeName(t).value;
      if j.JObj? then Some(RecordLit(name, LowerFields(d, j, d.records[name]))) else None
    else
      match j
      case JNum(r) => Some(if IsWhole(r) then IntLit(r.Floor) else FloatLit(r))
      case JStr(s) => Some(StrLit(s))
      case JBool(b) => Some(BoolLit(b))
      case JArr(items) => Some(ListLit(LowerAll(d, items, Ty.Named(""))))
      case JObj(members) =>
        Some(AnonymousLit(map n | n in members && Lower(d, members[n], Ty.Named("")).Some?
                            :: Lower(d, members[n], Ty.Named("")).value))
  }

  function LowerAll(d: Decls, items: seq<Json>, elem: Ty): seq<Ast>
    decreases items, 0, 0
  {
    if |items| == 0 then []
    else
      var first := Lower(d, items[0], elem);
      (if first.Some? then [first.value] else []) + LowerAll(d, items[1..], elem)
  }

  function LowerEnum(d: Decls, j: Json, name: string): Option<Ast>
    requires name in d.enums
    decreases j, 1, 0
  {
    match j
    case JStr(s) => Some(UnitRef(name, s))
    case JObj(members) =>
      if KIND !in members || !members[KIND].JStr? then None
      else
        var kind := members[KIND].s;
        var i := FindVariant(d.enums[name], kind);
        if i == |d.enums[name]| then None else Some(VariantCall(name, kind, LowerFields(d, j, d.enums[name][i].fields)))
    case _ => None
  }

  /** The fields that are present, in declared order. */
  function LowerFields(d: Decls, j: Json, fields: seq<Field>): seq<Named>
    requires j.JObj?
    decreases j, 0, |fields|
  {
    if |fields| == 0 then []
    else
      var n := |fields| - 1;
      var rest := LowerFields(d, j, fields[..n]);
      if fields[n].name !in j.members then rest
      else
        match Lower(d, j.members[fields[n].name], fields[n].ty)
        case None => rest
        case Some(e) => rest + [Named.Named(fields[n].name, e)]
  }

  // ---------- evaluation ----------

  datatype Value =
    | VNil
    | VInt(n: int)
    | VFloat(r: real)
    | VStr(s: string)
    | VBool(b: bool)
    | VList(elems: seq<Value>)
    | VObject(tname: string, fields: map<string, Value>)
    | VEnum(enum: string, variant: string, fields: map<string, Value>)

  function Eval(e: Ast): Value {
    match e
    case NilLit => VNil
    case IntLit(n) => VInt(n)
    case FloatLit(r) => VFloat(r)
    case StrLit(s) => VStr(s)
    case BoolLit(b) => VBool(b)
    case ListLit(elems) => VList(seq(|elems|, i requires 0 <= i < |elems| => Eval(elems[i])))
    case RecordLit(name, fields) => VObject(name, EvalNamed(fields))
    case AnonymousLit(members) => VObject("Object", map n | n in members :: Eval(members[n]))
    case UnitRef(enum, variant) => VEnum(enum, variant, map[])
    case VariantCall(enum, variant, args) => VEnum(enum, variant, EvalNamed(args))
  }

  /** Later ones win. */
  function EvalNamed(fields: seq<Named>): map<string, Value> {
    if |fields| == 0 then map[]
    else
      var n := |fields| - 1;
      EvalNamed(fields[..n])[fields[n].name := Eval(fields[n].value)]
  }

  // ---------- having a declared type ----------

  /** Nil stands for JSON null anywhere, and an Int will do for a Float. */
  predicate HasType(d: Decls, v: Value, ty: Ty)
    decreases v, 1, ty
  {
    v.VNil? ||
    match ty
    case OptionOf(inner) => HasType(d, v, inner)
    case ListOf(elem) => v.VList? && forall i :: 0 <= i < |v.elems| ==> HasType(d, v.elems[i], elem)
    case IntTy => v.VInt?
    case FloatTy => v.VFloat? || v.VInt?
    case StringTy => v.VStr?
    case BoolTy => v.VBool?
    case Named(name) =>
      if name in d.enums then
        && v.VEnum? && v.enum == name
        && var i := FindVariant(d.enums[name], v.variant);
           i < |d.enums[name]| && HasFields(d, v, d.enums[name][i].fields)
      else name in d.records ==> v.VObject? && v.tname == name && HasFields(d, v, d.records[name])
  }

  /** Only declared fields, each with its type, and none but optional ones
      missing. */
  predicate HasFields(d: Decls, v: Value, fields: seq<Field>)
    requires v.VEnum? || v.VObject?
    decreases v, 0
  {
    && (forall n :: n in v.fields ==> exists k :: 0 <= k < |fields| && fields[k].name == n)
    && (forall k :: 0 <= k < |fields| ==>
                      if fields[k].name in v.fields then HasType(d, v.fields[fields[k].name], fields[k].ty)
                      else Optional(fields[k]))
  }
}
