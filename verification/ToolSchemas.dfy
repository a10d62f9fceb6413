/** Generating the schema of a type: it comes to an end exactly when no
    declaration reachable from the type reaches itself, and then with one
    schema, however deep declarations may be followed. */
module ToolSchemas {
  import opened Options
  import opened ToolArgs

  // ---------- declarations that reach themselves ----------

  /** The one name a type expression mentions. */
  function Mention(ty: Ty): Option<string> {
    match ty
    case OptionOf(inner) => Mention(inner)
    case ListOf(elem) => Mention(elem)
    case Named(name) => Some(name)
    case _ => None
  }

  function Declared(d: Decls): set<string> {
    d.records.Keys + d.enums.Keys
  }

  predicate FieldsMention(fields: seq<Field>, name: string) {
    exists k :: 0 <= k < |fields| && Mention(fields[k].ty) == Some(name)
  }

  /** The declaration that `name` stands for, a record before an enum, mentions
      `other`. */
  predicate Uses(d: Decls, name: string, other: string) {
    if name in d.records then FieldsMention(d.records[name], other)
    else name in d.enums && exists i :: 0 <= i < |d.enums[name]| && FieldsMention(d.enums[name][i].fields, other)
  }

  /** Declared names, each used by the one before. */
  ghost predicate Walk(d: Decls, path: seq<string>) {
    && (forall i :: 0 <= i < |path| ==> path[i] in Declared(d))
    && (forall i, j :: 0 <= i && j == i + 1 < |path| ==> Uses(d, path[i], path[j]))
  }

  ghost predicate WalkFrom(d: Decls, ty: Ty, path: seq<string>) {
    |path| > 0 && Mention(ty) == Some(path[0]) && Walk(d, path)
  }

  predicate Distinct(path: seq<string>) {
    forall i, j :: 0 <= i < j < |path| ==> path[i] != path[j]
  }

  /** No declaration reachable from the type reaches itself. */
  ghost predicate Acyclic(d: Decls, ty: Ty) {
    forall path :: WalkFrom(d, ty, path) ==> Distinct(path)
  }

  /** The same, outside the declarations being followed. */
  ghost predicate Free(d: Decls, ty: Ty, open: set<string>) {
    forall path :: WalkFrom(d, ty, path) ==> Distinct(path) && forall x :: x in path ==> x !in open
  }

  ghost predicate FreeFields(d: Decls, fields: seq<Field>, open: set<string>) {
    forall k :: 0 <= k < |fields| ==> Free(d, fields[k].ty, open)
  }

  /** How many declarations are still to follow. */
  function Room(d: Decls, open: set<string>): nat {
    |Declared(d) - open|
  }

  lemma RoomShrinks(d: Decls, open: set<string>, name: string)
    requires name in Declared(d) && name !in open
    ensures Room(d, open + {name}) + 1 == Room(d, open)
  {
    assert Declared(d) - (open + {name}) == (Declared(d) - open) - {name};
  }

  /** A walk from a field of a declaration is one step longer from its name. */
  lemma FreeField(d: Decls, name: string, open: set<string>, ty: Ty)
    requires name in Declared(d) && Free(d, Ty.Named(name), open)
    requires forall other :: Mention(ty) == Some(other) ==> Uses(d, name, other)
    ensures Free(d, ty, open + {name})
  {
    hide Uses, Declared;
    forall path | WalkFrom(d, ty, path) ensures Distinct(path) && forall x :: x in path ==> x !in open + {name} {
      var longer := [name] + path;
      assert Walk(d, longer) by { WalkLonger(d, name, path); }
      assert WalkFrom(d, Ty.Named(name), longer);
      assert Distinct(longer) && forall x :: x in longer ==> x !in open;
      forall x | x in path ensures x !in open + {name} {
        var i :| 0 <= i < |path| && path[i] == x;
        assert longer[0] == name && longer[i + 1] == x;
      }
      forall i, j | 0 <= i < j < |path| ensures path[i] != path[j] {
        assert longer[i + 1] == path[i] && longer[j + 1] == path[j];
      }
    }
  }

  lemma WalkLonger(d: Decls, name: string, path: seq<string>)
    requires Walk(d, path) && name in Declared(d) && |path| > 0 && Uses(d, name, path[0])
    ensures Walk(d, [name] + path)
  {
    hide Uses, Declared;
    var longer := [name] + path;
    forall i, j | 0 <= i && j == i + 1 < |longer| ensures Uses(d, longer[i], longer[j]) {
      if i > 0 { assert Uses(d, path[i - 1], path[j - 1]); }
    }
  }

  lemma FreeRecord(d: Decls, name: string, open: set<string>)
    requires name in d.records && Free(d, Ty.Named(name), open)
    ensures name !in open && FreeFields(d, d.records[name], open + {name})
  {
    FreeName(d, name, open);
    hide Free, Mention;
    var fields := d.records[name];
    forall k | 0 <= k < |fields| ensures Free(d, fields[k].ty, open + {name}) {
      FreeField(d, name, open, fields[k].ty);
    }
  }

  lemma FreeVariant(d: Decls, name: string, open: set<string>, i: nat)
    requires name in d.enums && name !in d.records && Free(d, Ty.Named(name), open) && i < |d.enums[name]|
    ensures name !in open && FreeFields(d, d.enums[name][i].fields, open + {name})
  {
    FreeName(d, name, open);
    hide Free, Mention;
    var fields := d.enums[name][i].fields;
    forall k | 0 <= k < |fields| ensures Free(d, fields[k].ty, open + {name}) {
      FreeField(d, name, open, fields[k].ty);
    }
  }

  lemma FreeName(d: Decls, name: string, open: set<string>)
    requires name in Declared(d) && Free(d, Ty.Named(name), open)
    ensures name !in open
  {
    assert WalkFrom(d, Ty.Named(name), [name]);
    assert name in [name];
  }

  // ---------- the generator ----------

  /** `open` holds the declarations being followed, which cannot turn up again. */
  method GenerateSchema(d: Decls, ty: Ty, ghost open: set<string>) returns (r: Schema)
    requires Free(d, ty, open)
    ensures SchemaOf(d, ty, Room(d, open)) == Some(r)
    decreases Room(d, open), 0, ty
  {
    hide RecordSchema, EnumSchema, Room;
    match ty
    case IntTy => r := Integer;
    case FloatTy => r := Number;
    case StringTy => r := Text;
    case BoolTy => r := Boolean;
    case OptionOf(inner) =>
      FreeUnder(d, ty, inner, open);
      r := GenerateSchema(d, inner, open);
    case ListOf(elem) =>
      FreeUnder(d, ty, elem, open);
      var items := GenerateSchema(d, elem, open);
      r := Array(items);
    case Named(name) =>
      hide Free;
      if name in d.records {
        FreeRecord(d, name, open);
        RoomShrinks(d, open, name);
        r := GenerateRecord(d, map[], [], d.records[name], open + {name});
      } else if name in d.enums {
        FreeName(d, name, open);
        RoomShrinks(d, open, name);
        forall i | 0 <= i < |d.enums[name]| ensures FreeFields(d, d.enums[name][i].fields, open + {name}) {
          FreeVariant(d, name, open, i);
        }
        r := GenerateEnum(d, d.enums[name], open + {name});
      } else {
        r := Text;
      }
  }

  lemma FreeUnder(d: Decls, ty: Ty, inner: Ty, open: set<string>)
    requires Free(d, ty, open) && (ty == OptionOf(inner) || ty == ListOf(inner))
    ensures Free(d, inner, open)
  {
    hide Walk, Distinct;
    forall path | WalkFrom(d, inner, path) ensures Distinct(path) && forall x :: x in path ==> x !in open {
      assert WalkFrom(d, ty, path);
    }
  }

  method GenerateRecord(d: Decls, base: map<string, Schema>, first: seq<string>, fields: seq<Field>,
      ghost open: set<string>)
    returns (r: Schema)
    requires FreeFields(d, fields, open)
    ensures RecordSchema(d, base, first, fields, Room(d, open)) == Some(r)
    decreases Room(d, open), 2, |fields|
  {
    hide SchemaOf, Free, Room;
    var props, required := base, first;
    ghost var depth := Room(d, open);
    for i := 0 to |fields|
      invariant Properties(d, base, fields[..i], depth) == Some(props)
      invariant required == first + Required(fields[..i])
    {
      assert fields[..i + 1][..i] == fields[..i];
      var ps := GenerateSchema(d, fields[i].ty, open);
      props := props[fields[i].name := ps];
      if !Optional(fields[i]) {
        required := required + [fields[i].name];
      }
    }
    assert fields[..|fields|] == fields;
    r := Record(props, required);
  }

  method GenerateEnum(d: Decls, variants: seq<Variant>, ghost open: set<string>) returns (r: Schema)
    requires forall i :: 0 <= i < |variants| ==> FreeFields(d, variants[i].fields, open)
    ensures EnumSchema(d, variants, Room(d, open)) == Some(r)
    decreases Room(d, open), 4, |variants|
  {
    hide RecordSchema, FreeFields, Room;
    if AllUnit(variants) {
      return Enumeration(VariantNames(variants));
    }
    var branches := [];
    ghost var depth := Room(d, open);
    for i := 0 to |variants|
      invariant Branches(d, variants[..i], depth) == Some(branches)
    {
      assert variants[..i + 1][..i] == variants[..i];
      var b := GenerateRecord(d, map[KIND := Const(variants[i].name)], [KIND], variants[i].fields, open);
      branches := branches + [b];
    }
    assert variants[..|variants|] == variants;
    r := AnyOf(branches);
  }

  // ---------- without repetition there is a schema ----------

  lemma {:induction false} FreeHasSchema(d: Decls, ty: Ty, open: set<string>)
    requires Free(d, ty, open)
    ensures SchemaOf(d, ty, Room(d, open)).Some?
    decreases Room(d, open), 0, ty
  {
    hide RecordSchema, EnumSchema, Room;
    match ty
    case OptionOf(inner) =>
      FreeUnder(d, ty, inner, open);
      FreeHasSchema(d, inner, open);
    case ListOf(elem) =>
      FreeUnder(d, ty, elem, open);
      FreeHasSchema(d, elem, open);
    case Named(name) =>
      hide Free;
      if name in d.records {
        FreeRecord(d, name, open);
        RoomShrinks(d, open, name);
        FreeHasProperties(d, map[], d.records[name], open + {name});
        RecordHas(d, map[], [], d.records[name], Room(d, open + {name}));
      } else if name in d.enums {
        FreeName(d, name, open);
        RoomShrinks(d, open, name);
        forall i | 0 <= i < |d.enums[name]| ensures FreeFields(d, d.enums[name][i].fields, open + {name}) {
          FreeVariant(d, name, open, i);
        }
        FreeHasBranches(d, d.enums[name], open + {name});
        EnumHas(d, d.enums[name], Room(d, open + {name}));
      }
    case _ =>
  }

  lemma RecordHas(d: Decls, base: map<string, Schema>, first: seq<string>, fields: seq<Field>, depth: nat)
    ensures RecordSchema(d, base, first, fields, depth).Some? <==> Properties(d, base, fields, depth).Some?
  {
    hide Properties;
  }

  lemma EnumHas(d: Decls, variants: seq<Variant>, depth: nat)
    ensures EnumSchema(d, variants, depth).Some? <==> AllUnit(variants) || Branches(d, variants, depth).Some?
  {
    hide Branches, AllUnit;
  }

  lemma {:induction false} FreeHasProperties(d: Decls, base: map<string, Schema>, fields: seq<Field>, open: set<string>)
    requires FreeFields(d, fields, open)
    ensures Properties(d, base, fields, Room(d, open)).Some?
    decreases Room(d, open), 1, |fields|
  {
    hide SchemaOf, Free, Room;
    if |fields| > 0 {
      FreeHasProperties(d, base, fields[..|fields| - 1], open);
      FreeHasSchema(d, fields[|fields| - 1].ty, open);
    }
  }

  lemma {:induction false} FreeHasBranches(d: Decls, variants: seq<Variant>, open: set<string>)
    requires forall i :: 0 <= i < |variants| ==> FreeFields(d, variants[i].fields, open)
    ensures Branches(d, variants, Room(d, open)).Some?
    decreases Room(d, open), 3, |variants|
  {
    hide Properties, FreeFields, Room;
    if |variants| > 0 {
      var last := variants[|variants| - 1];
      FreeHasBranches(d, variants[..|variants| - 1], open);
      FreeHasProperties(d, map[KIND := Const(last.name)], last.fields, open);
    }
  }

  // ---------- with a schema there is no repetition ----------

  /** Every part of a type with a schema has one. */
  lemma {:induction false} PropertiesAll(d: Decls, base: map<string, Schema>, fields: seq<Field>, depth: nat, k: nat)
    requires Properties(d, base, fields, depth).Some? && k < |fields|
    ensures SchemaOf(d, fields[k].ty, depth).Some?
    decreases |fields|
  {
    hide SchemaOf;
    if k < |fields| - 1 { PropertiesAll(d, base, fields[..|fields| - 1], depth, k); }
  }

  lemma {:induction false} BranchesAll(d: Decls, variants: seq<Variant>, depth: nat, i: nat)
    requires Branches(d, variants, depth).Some? && i < |variants|
    ensures RecordSchema(d, map[KIND := Const(variants[i].name)], [KIND], variants[i].fields, depth).Some?
    decreases |variants|
  {
    hide RecordSchema;
    if i < |variants| - 1 { BranchesAll(d, variants[..|variants| - 1], depth, i); }
  }

  lemma {:induction false} MentionHasSchema(d: Decls, ty: Ty, depth: nat)
    requires SchemaOf(d, ty, depth).Some? && Mention(ty).Some?
    ensures SchemaOf(d, Ty.Named(Mention(ty).value), depth).Some?
  {
    hide RecordSchema, EnumSchema;
    match ty
    case OptionOf(inner) => MentionHasSchema(d, inner, depth);
    case ListOf(elem) => MentionHasSchema(d, elem, depth);
    case _ =>
  }

  /** A declaration with a schema uses only declarations with one, less deep. */
  lemma UsedHasSchema(d: Decls, name: string, other: string, depth: nat)
    requires SchemaOf(d, Ty.Named(name), depth).Some? && Uses(d, name, other) && name in Declared(d)
    ensures depth > 0 && SchemaOf(d, Ty.Named(other), depth - 1).Some?
  {
    hide Branches, Properties;
    if name in d.records {
      var k :| 0 <= k < |d.records[name]| && Mention(d.records[name][k].ty) == Some(other);
      PropertiesAll(d, map[], d.records[name], depth - 1, k);
      MentionHasSchema(d, d.records[name][k].ty, depth - 1);
    } else {
      var variants := d.enums[name];
      var i :| 0 <= i < |variants| && FieldsMention(variants[i].fields, other);
      var k :| 0 <= k < |variants[i].fields| && Mention(variants[i].fields[k].ty) == Some(other);
      assert !AllUnit(variants);
      BranchesAll(d, variants, depth - 1, i);
      PropertiesAll(d, map[KIND := Const(variants[i].name)], variants[i].fields, depth - 1, k);
      MentionHasSchema(d, variants[i].fields[k].ty, depth - 1);
    }
  }

  lemma {:induction false} WalkHasSchema(d: Decls, path: seq<string>, i: nat, depth: nat)
    requires Walk(d, path) && i < |path| && SchemaOf(d, Ty.Named(path[0]), depth).Some?
    ensures i <= depth && SchemaOf(d, Ty.Named(path[i]), depth - i).Some?
    decreases i
  {
    hide SchemaOf, Uses, Declared;
    if i > 0 {
      WalkHasSchema(d, path, i - 1, depth);
      assert Uses(d, path[i - 1], path[i]);
      UsedHasSchema(d, path[i - 1], path[i], depth - (i - 1));
    }
  }

  /** A declaration on a cycle has no schema at any depth. */
  lemma {:induction false} CycleHasNone(d: Decls, path: seq<string>, depth: nat)
    requires Walk(d, path) && |path| > 1 && path[|path| - 1] == path[0]
    ensures SchemaOf(d, Ty.Named(path[0]), depth).None?
    decreases depth
  {
    hide SchemaOf, Walk;
    if SchemaOf(d, Ty.Named(path[0]), depth).Some? {
      WalkHasSchema(d, path, |path| - 1, depth);
      CycleHasNone(d, path, depth - (|path| - 1));
    }
  }

  lemma SchemaAcyclic(d: Decls, ty: Ty, depth: nat)
    requires SchemaOf(d, ty, depth).Some?
    ensures Acyclic(d, ty)
  {
    hide SchemaOf;
    forall path | WalkFrom(d, ty, path) ensures Distinct(path) {
      MentionHasSchema(d, ty, depth);
      forall i, j | 0 <= i < j < |path| ensures path[i] != path[j] {
        WalkHasSchema(d, path, i, depth);
        WalkPart(d, path, i, j);
        if path[i] == path[j] { CycleHasNone(d, path[i..j + 1], depth - i); }
      }
    }
  }

  lemma WalkPart(d: Decls, path: seq<string>, i: nat, j: nat)
    requires Walk(d, path) && i < j < |path|
    ensures Walk(d, path[i..j + 1])
  {
    hide Uses, Declared;
    var part := path[i..j + 1];
    forall a, b | 0 <= a && b == a + 1 < |part| ensures Uses(d, part[a], part[b]) {
      assert Uses(d, path[i + a], path[i + b]);
    }
  }

  /** Generation has an answer exactly when no declaration reachable from the
      type reaches itself; as many steps as there are declarations are then
      enough. */
  lemma SchemaExists(d: Decls, ty: Ty)
    ensures (exists depth: nat :: SchemaOf(d, ty, depth).Some?) <==> Acyclic(d, ty)
    ensures Acyclic(d, ty) <==> SchemaOf(d, ty, |Declared(d)|).Some?
  {
    hide SchemaOf, Acyclic;
    if Acyclic(d, ty) {
      assert Free(d, ty, {}) by { AcyclicFree(d, ty); }
      FreeHasSchema(d, ty, {});
      assert Declared(d) - {} == Declared(d);
    }
    if depth: nat :| SchemaOf(d, ty, depth).Some? { SchemaAcyclic(d, ty, depth); }
  }

  lemma AcyclicFree(d: Decls, ty: Ty)
    requires Acyclic(d, ty)
    ensures Free(d, ty, {})
  {
    hide WalkFrom, Distinct;
  }

  // ---------- one schema, however deep ----------

  lemma {:induction false} DeeperSame(d: Decls, ty: Ty, depth: nat, deeper: nat)
    requires SchemaOf(d, ty, depth).Some? && depth <= deeper
    ensures SchemaOf(d, ty, deeper) == SchemaOf(d, ty, depth)
    decreases depth, 0, ty
  {
    match ty
    case OptionOf(inner) => DeeperSame(d, inner, depth, deeper);
    case ListOf(elem) => DeeperSame(d, elem, depth, deeper);
    case Named(name) =>
      hide Properties, Branches;
      if name in d.records {
        DeeperProperties(d, map[], d.records[name], depth - 1, deeper - 1);
      } else if name in d.enums && !AllUnit(d.enums[name]) {
        DeeperBranches(d, d.enums[name], depth - 1, deeper - 1);
      }
    case _ =>
  }

  lemma {:induction false} DeeperProperties(d: Decls, base: map<string, Schema>, fields: seq<Field>, depth: nat,
      deeper: nat)
    requires Properties(d, base, fields, depth).Some? && depth <= deeper
    ensures Properties(d, base, fields, deeper) == Properties(d, base, fields, depth)
    decreases depth, 1, |fields|
  {
    hide SchemaOf;
    if |fields| > 0 {
      DeeperProperties(d, base, fields[..|fields| - 1], depth, deeper);
      DeeperSame(d, fields[|fields| - 1].ty, depth, deeper);
    }
  }

  lemma {:induction false} DeeperBranches(d: Decls, variants: seq<Variant>, depth: nat, deeper: nat)
    requires Branches(d, variants, depth).Some? && depth <= deeper
    ensures Branches(d, variants, deeper) == Branches(d, variants, depth)
    decreases depth, 3, |variants|
  {
    hide Properties;
    if |variants| > 0 {
      var last := variants[|variants| - 1];
      DeeperBranches(d, variants[..|variants| - 1], depth, deeper);
      DeeperProperties(d, map[KIND := Const(last.name)], last.fields, depth, deeper);
    }
  }

  /** Whatever depth gives an answer, it is this one. */
  lemma SchemaUnique(d: Decls, ty: Ty, depth: nat)
    requires SchemaOf(d, ty, depth).Some?
    ensures SchemaOf(d, ty, |Declared(d)|) == SchemaOf(d, ty, depth)
  {
    hide SchemaOf;
    SchemaExists(d, ty);
    if depth <= |Declared(d)| {
      DeeperSame(d, ty, depth, |Declared(d)|);
    } else {
      DeeperSame(d, ty, |Declared(d)|, depth);
    }
  }

  // ---------- the schema of a tool ----------

  ghost predicate AcyclicFields(d: Decls, fields: seq<Field>) {
    forall k :: 0 <= k < |fields| ==> Acyclic(d, fields[k].ty)
  }

  /** The schema of a tool's inputs. */
  ghost function InputSchema(d: Decls, inputs: seq<Field>): Option<Schema> {
    RecordSchema(d, map[], [], inputs, |Declared(d)|)
  }

  lemma AcyclicFreeFields(d: Decls, inputs: seq<Field>)
    requires AcyclicFields(d, inputs)
    ensures FreeFields(d, inputs, {}) && Room(d, {}) == |Declared(d)|
  {
    hide Acyclic, Free;
    forall k | 0 <= k < |inputs| ensures Free(d, inputs[k].ty, {}) {
      AcyclicFree(d, inputs[k].ty);
    }
    assert Declared(d) - {} == Declared(d);
  }

  lemma InputSchemaExists(d: Decls, inputs: seq<Field>)
    requires AcyclicFields(d, inputs)
    ensures InputSchema(d, inputs).Some?
  {
    hide FreeFields, AcyclicFields, Properties, Room;
    AcyclicFreeFields(d, inputs);
    FreeHasProperties(d, map[], inputs, {});
  }

  method GenerateInputs(d: Decls, inputs: seq<Field>) returns (r: Schema)
    requires AcyclicFields(d, inputs)
    ensures InputSchema(d, inputs) == Some(r)
  {
    hide FreeFields, AcyclicFields, RecordSchema, Room;
    AcyclicFreeFields(d, inputs);
    r := GenerateRecord(d, map[], [], inputs, {});
  }
}
