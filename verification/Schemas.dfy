/** JSON Schema from parameter forests, and what the schemas mean. */
module Schemas {
  import opened Model
  import opened Forests

  datatype Json =
    | Null
    | Boolean(b: bool)
    | Number(n: real)
    | String(s: string)
    | Array(elements: seq<Json>)
    | Object(fields: map<string, Json>)

  datatype JsonType = TString | TInteger | TNumber | TBoolean | TObject | TArray

  /** The keywords the generator uses; `closed` is additionalProperties: false. Annotations are left out. */
  datatype Schema = Schema(
    kind: JsonType,
    format: Option<string>,
    properties: Option<Dict>,
    required: Option<seq<string>>,
    closed: bool,
    items: Option<Schema>)

  /** A dictionary of schemas in insertion order. */
  datatype Dict = NoEntry | Entry(name: string, value: Schema, rest: Dict)

  function Lookup(d: Dict, name: string): (r: Option<Schema>)
    ensures r.Some? ==> r.value < d
  {
    match d
    case NoEntry => None
    case Entry(n, v, rest) => if n == name then Some(v) else Lookup(rest, name)
  }

  /** Assignment to a key: the value of an existing key is replaced where it stands. */
  function Assign(d: Dict, name: string, value: Schema): Dict {
    match d
    case NoEntry => Entry(name, value, NoEntry)
    case Entry(n, v, rest) => if n == name then Entry(n, value, rest) else Entry(n, v, Assign(rest, name, value))
  }

  lemma {:induction false} LookupAssigned(d: Dict, name: string, value: Schema, other: string)
    ensures Lookup(Assign(d, name, value), other) == if other == name then Some(value) else Lookup(d, other)
  {
    match d
    case NoEntry =>
    case Entry(_, _, rest) => LookupAssigned(rest, name, value, other);
  }

  // ---- validation: sections 6.1.1 and 6.5.3 of JSON Schema Validation 2020-12 and
  // ---- sections 10.3.1.2, 10.3.2.1 and 10.3.2.3 of JSON Schema Core 2020-12

  predicate HasType(kind: JsonType, j: Json) {
    match kind
    case TString => j.String?
    case TInteger => j.Number? && j.n.Floor as real == j.n
    case TNumber => j.Number?
    case TBoolean => j.Boolean?
    case TObject => j.Object?
    case TArray => j.Array?
  }

  predicate Validates(s: Schema, j: Json)
    decreases s
  {
    && HasType(s.kind, j)
    && (j.Object? && s.properties.Some? ==>
          forall name | name in j.fields && Lookup(s.properties.value, name).Some? ::
            Validates(Lookup(s.properties.value, name).value, j.fields[name]))
    && (j.Object? && s.required.Some? ==> forall name | name in s.required.value :: name in j.fields)
    && (j.Object? && s.closed ==>
          forall name | name in j.fields :: s.properties.Some? && Lookup(s.properties.value, name).Some?)
    && (j.Array? && s.items.Some? ==> forall i | 0 <= i < |j.elements| :: Validates(s.items.value, j.elements[i]))
  }

  // ---- generation ----

  function Bare(kind: JsonType): Schema {
    Schema(kind, None, None, None, false, None)
  }

  function TypeSchema(t: ParamType): Schema {
    match t
    case StringType => Bare(TString)
    case IntType => Bare(TInteger).(format := Some("int64"))
    case DoubleType => Bare(TNumber).(format := Some("double"))
    case BooleanType => Bare(TBoolean)
    case BinaryType => Bare(TString).(format := Some("binary"))
    case ObjectType => Bare(TObject)
    case ArrayType => Bare(TArray)
  }

  /** An array without an element type has string elements. */
  function ItemSchema(t: Option<ParamType>): Schema {
    if t.Some? then TypeSchema(t.value) else Bare(TString)
  }

  function PropertiesOf(kids: Forest<Payload>, d: Dict): Dict
    decreases kids, 0
  {
    match kids
    case Empty => d
    case Tree(p, ks, rest) => PropertiesOf(rest, Assign(d, p.name, ParamSchema(p, ks)))
  }

  function RequiredOf(kids: Forest<Payload>): seq<string> {
    match kids
    case Empty => []
    case Tree(p, _, rest) => (if p.required then [p.name] else []) + RequiredOf(rest)
  }

  function Filled(base: Schema, kids: Forest<Payload>): Schema
    decreases kids, 1
  {
    base.(properties := if kids.Tree? then Some(PropertiesOf(kids, NoEntry)) else None,
          closed := kids.Tree?,
          required := if RequiredOf(kids) != [] then Some(RequiredOf(kids)) else None)
  }

  function ParamSchema(p: Payload, kids: Forest<Payload>): Schema
    decreases kids, 2
  {
    if p.kind == ObjectType then Filled(TypeSchema(p.kind), kids)
    else if p.kind == ArrayType then
      TypeSchema(p.kind).(items := Some(
        if p.itemKind == Some(ObjectType) then Filled(Bare(TObject), kids) else ItemSchema(p.itemKind)))
    else TypeSchema(p.kind)
  }

  function RootSchema(params: Forest<Payload>): Schema {
    Schema(TObject, None, Some(PropertiesOf(params, NoEntry)),
           if RequiredOf(params) != [] then Some(RequiredOf(params)) else None, true, None)
  }

  lemma {:induction false} AssignedIsEntry(d: Dict, name: string, value: Schema)
    ensures Assign(d, name, value).Entry?
  {
  }

  lemma {:induction false} PropertiesEntry(kids: Forest<Payload>, d: Dict)
    ensures PropertiesOf(kids, d) == NoEntry <==> kids == Empty && d == NoEntry
    decreases kids
  {
    match kids
    case Empty =>
    case Tree(p, ks, rest) =>
      AssignedIsEntry(d, p.name, ParamSchema(p, ks));
      PropertiesEntry(rest, Assign(d, p.name, ParamSchema(p, ks)));
  }

  lemma OneMoreRequired(required: seq<string>, todo: Forest<Payload>, all: seq<string>)
    requires todo.Tree? && required + RequiredOf(todo) == all
    ensures (if todo.root.required then required + [todo.root.name] else required) + RequiredOf(todo.rest) == all
  {
  }

  /** The `properties` and `required` of a list of parameters, filled in one pass. */
  method Collect(params: Forest<Payload>) returns (properties: Dict, required: seq<string>)
    ensures properties == PropertiesOf(params, NoEntry) && required == RequiredOf(params)
    decreases params, 0
  {
    properties, required := NoEntry, [];
    var todo := params;
    while todo.Tree?
      invariant todo == params || todo < params
      invariant PropertiesOf(todo, properties) == PropertiesOf(params, NoEntry)
      invariant required + RequiredOf(todo) == RequiredOf(params)
      decreases todo
    {
      var child := BuildParamSchema(todo.root, todo.kids);
      properties := Assign(properties, todo.root.name, child);
      OneMoreRequired(required, todo, RequiredOf(params));
      if todo.root.required {
        required := required + [todo.root.name];
      }
      todo := todo.rest;
    }
    assert required + [] == required;
  }

  /** An object schema over its children; keywords that would be empty are not set. */
  method FillObject(base: Schema, kids: Forest<Payload>) returns (schema: Schema)
    requires base.properties.None? && base.required.None? && !base.closed
    ensures schema == Filled(base, kids)
    decreases kids, 1
  {
    var properties, required := Collect(kids);
    PropertiesEntry(kids, NoEntry);
    schema := base;
    if properties != NoEntry {
      schema := schema.(properties := Some(properties), closed := true);
    }
    if required != [] {
      schema := schema.(required := Some(required));
    }
  }

  method BuildParamSchema(p: Payload, kids: Forest<Payload>) returns (schema: Schema)
    ensures schema == ParamSchema(p, kids)
    decreases kids, 2
  {
    schema := TypeSchema(p.kind);
    if p.kind == ObjectType {
      schema := FillObject(schema, kids);
    } else if p.kind == ArrayType {
      if p.itemKind == Some(ObjectType) {
        var item := FillObject(Bare(TObject), kids);
        schema := schema.(items := Some(item));
      } else {
        schema := schema.(items := Some(ItemSchema(p.itemKind)));
      }
    }
  }

  method BuildRootSchema(params: Forest<Payload>) returns (schema: Schema)
    ensures schema == RootSchema(params)
  {
    var properties, required := Collect(params);
    schema := Schema(TObject, None, Some(properties), if required == [] then None else Some(required), true, None);
  }

  // ---- the forest read directly ----

  /** The last sibling of a name: its payload and children. */
  function LastNamed(f: Forest<Payload>, name: string): (r: Option<(Payload, Forest<Payload>)>)
    ensures r.Some? ==> r.value.1 < f && r.value.0.name == name
  {
    match f
    case Empty => None
    case Tree(p, kids, rest) =>
      if LastNamed(rest, name).Some? then LastNamed(rest, name)
      else if p.name == name then Some((p, kids))
      else None
  }

  predicate PlainFits(t: ParamType, j: Json) {
    match t
    case StringType => j.String?
    case BinaryType => j.String?
    case IntType => j.Number? && j.n.Floor as real == j.n
    case DoubleType => j.Number?
    case BooleanType => j.Boolean?
    case ObjectType => j.Object?
    case ArrayType => j.Array?
  }

  /** The members are declared parameters and conform to them, and no required parameter is missing. */
  predicate RecordFits(f: Forest<Payload>, fields: map<string, Json>)
    decreases f, 0
  {
    && (forall name | name in fields ::
          && LastNamed(f, name).Some?
          && Conforms(LastNamed(f, name).value.0, LastNamed(f, name).value.1, fields[name]))
    && RequiredPresent(f, fields)
  }

  predicate RequiredPresent(f: Forest<Payload>, fields: map<string, Json>) {
    match f
    case Empty => true
    case Tree(p, _, rest) => (p.required ==> p.name in fields) && RequiredPresent(rest, fields)
  }

  /** A JSON value is a legal value of a parameter. An object or array of objects without children is unconstrained
      inside. */
  predicate Conforms(p: Payload, kids: Forest<Payload>, j: Json)
    decreases kids, 1
  {
    match p.kind
    case ObjectType => j.Object? && (kids.Tree? ==> RecordFits(kids, j.fields))
    case ArrayType =>
      j.Array? && forall i | 0 <= i < |j.elements| ::
        if p.itemKind == Some(ObjectType) then
          j.elements[i].Object? && (kids.Tree? ==> RecordFits(kids, j.elements[i].fields))
        else PlainFits(if p.itemKind.Some? then p.itemKind.value else StringType, j.elements[i])
    case t => PlainFits(t, j)
  }

  lemma {:induction false} LookupProperty(kids: Forest<Payload>, d: Dict, name: string)
    ensures Lookup(PropertiesOf(kids, d), name) ==
            match LastNamed(kids, name)
            case Some((p, ks)) => Some(ParamSchema(p, ks))
            case None => Lookup(d, name)
    decreases kids
  {
    match kids
    case Empty =>
    case Tree(p, ks, rest) =>
      LookupProperty(rest, Assign(d, p.name, ParamSchema(p, ks)), name);
      LookupAssigned(d, p.name, ParamSchema(p, ks), name);
  }

  lemma {:induction false} RequiredMeaning(f: Forest<Payload>, fields: map<string, Json>)
    ensures RequiredPresent(f, fields) <==> forall name | name in RequiredOf(f) :: name in fields
  {
    match f
    case Empty =>
    case Tree(p, _, rest) =>
      RequiredMeaning(rest, fields);
      if p.required {
        assert RequiredOf(f)[0] == p.name;
      }
      forall name | name in RequiredOf(rest) ensures name in RequiredOf(f) {
      }
  }

  /** The format annotation tells integers, doubles and binary strings apart; nothing else is annotated. */
  lemma Formats(p: Payload, kids: Forest<Payload>)
    ensures ParamSchema(p, kids).format == Some("int64") <==> p.kind == IntType
    ensures ParamSchema(p, kids).format == Some("double") <==> p.kind == DoubleType
    ensures ParamSchema(p, kids).format == Some("binary") <==> p.kind == BinaryType
    ensures ParamSchema(p, kids).format == None <==> p.kind !in {IntType, DoubleType, BinaryType}
  {
  }

  /** A closed object schema over the properties of a forest validates exactly the fitting records. */
  lemma {:induction false} ClosedMeaning(s: Schema, f: Forest<Payload>, j: Json)
    requires s.kind == TObject && s.closed && s.items.None? && s.properties == Some(PropertiesOf(f, NoEntry))
    requires s.required == if RequiredOf(f) != [] then Some(RequiredOf(f)) else None
    ensures Validates(s, j) <==> j.Object? && RecordFits(f, j.fields)
    decreases f, 0
  {
    if j.Object? {
      RequiredMeaning(f, j.fields);
      forall name | name in j.fields
        ensures Lookup(s.properties.value, name).Some? <==> LastNamed(f, name).Some?
        ensures LastNamed(f, name).Some? ==>
                  (Validates(Lookup(s.properties.value, name).value, j.fields[name]) <==>
                   Conforms(LastNamed(f, name).value.0, LastNamed(f, name).value.1, j.fields[name]))
      {
        LookupProperty(f, NoEntry, name);
        if LastNamed(f, name).Some? {
          ParamMeaning(LastNamed(f, name).value.0, LastNamed(f, name).value.1, j.fields[name]);
        }
      }
    }
  }

  lemma {:induction false} FilledMeaning(base: Schema, kids: Forest<Payload>, j: Json)
    requires base == Bare(TObject)
    ensures Validates(Filled(base, kids), j) <==> j.Object? && (kids.Tree? ==> RecordFits(kids, j.fields))
    decreases kids, 1
  {
    if kids.Tree? {
      ClosedMeaning(Filled(base, kids), kids, j);
    }
  }

  lemma {:induction false} ObjectsMeaning(kids: Forest<Payload>, elements: seq<Json>)
    ensures forall i | 0 <= i < |elements| ::
              Validates(Filled(Bare(TObject), kids), elements[i]) <==>
              elements[i].Object? && (kids.Tree? ==> RecordFits(kids, elements[i].fields))
    decreases kids, 2
  {
    forall i | 0 <= i < |elements|
      ensures Validates(Filled(Bare(TObject), kids), elements[i]) <==>
              elements[i].Object? && (kids.Tree? ==> RecordFits(kids, elements[i].fields))
    {
      FilledMeaning(Bare(TObject), kids, elements[i]);
    }
  }

  lemma PlainMeaning(t: ParamType, j: Json)
    ensures Validates(TypeSchema(t), j) <==> PlainFits(t, j)
  {
  }

  lemma PlainElements(t: Option<ParamType>, elements: seq<Json>)
    ensures forall i | 0 <= i < |elements| ::
              Validates(ItemSchema(t), elements[i]) <==> PlainFits(if t.Some? then t.value else StringType, elements[i])
  {
    forall i | 0 <= i < |elements|
      ensures Validates(ItemSchema(t), elements[i]) <==> PlainFits(if t.Some? then t.value else StringType, elements[i])
    {
      PlainMeaning(if t.Some? then t.value else StringType, elements[i]);
    }
  }

  /** The schema of a parameter validates exactly the values that conform to it. */
  lemma {:induction false} ParamMeaning(p: Payload, kids: Forest<Payload>, j: Json)
    ensures Validates(ParamSchema(p, kids), j) <==> Conforms(p, kids, j)
    decreases kids, 3
  {
    if p.kind == ObjectType {
      FilledMeaning(TypeSchema(p.kind), kids, j);
    } else if p.kind != ArrayType {
      PlainMeaning(p.kind, j);
    } else if j.Array? {
      ObjectsMeaning(kids, j.elements);
      PlainElements(p.itemKind, j.elements);
    }
  }

  /** Schema generation preserves meaning, for every parameter forest and every JSON value. */
  lemma RootMeaning(params: Forest<Payload>, j: Json)
    ensures Validates(RootSchema(params), j) <==> j.Object? && RecordFits(params, j.fields)
  {
    ClosedMeaning(RootSchema(params), params, j);
  }

  // ---- distinct sibling names ----

  predicate NoneNamed(f: Forest<Payload>, name: string) {
    match f
    case Empty => true
    case Tree(p, _, rest) => p.name != name && NoneNamed(rest, name)
  }

  /** Siblings have distinct names, at every depth. */
  predicate DistinctNames(f: Forest<Payload>) {
    match f
    case Empty => true
    case Tree(p, kids, rest) => NoneNamed(rest, p.name) && DistinctNames(kids) && DistinctNames(rest)
  }

  lemma {:induction false} NoneNamedLast(f: Forest<Payload>, name: string)
    ensures NoneNamed(f, name) <==> LastNamed(f, name).None?
  {
    match f
    case Empty =>
    case Tree(_, _, rest) => NoneNamedLast(rest, name);
  }
}
