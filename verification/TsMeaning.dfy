/**
 * What the generated TypeScript types mean: which JSON values have them. The interfaces of a list of parameters are
 * the type of exactly the records that fit the parameters as TypeScript can express them, and every value that the
 * generated schema lets pass is one of them.
 */
module TsMeaning {
  import opened Model
  import opened Forests
  import opened TypeScript
  import opened Schemas
  import opened DirectReading
  import opened Naming

  // ---- types without interfaces ----

  /** Interface names stand for any value here; they are resolved below. */
  predicate HasTsType(t: TsType, j: Json) {
    match t
    case TsNumber => j.Number?
    case TsString => j.String?
    case TsBoolean => j.Boolean?
    case TsAny => true
    case ArrayOf(e) => j.Array? && forall i | 0 <= i < |j.elements| :: HasTsType(e, j.elements[i])
    case Named(_) => true
  }

  /** TypeScript knows one kind of number, and `any` for what it does not express. */
  predicate PlainTsFits(t: ParamType, j: Json) {
    match t
    case IntType => j.Number?
    case DoubleType => j.Number?
    case StringType => j.String?
    case BooleanType => j.Boolean?
    case ArrayType => j.Array?
    case ObjectType => true
    case BinaryType => true
  }

  predicate PlainParamTsFits(p: Payload, j: Json) {
    if p.kind == ArrayType then
      j.Array? && (p.itemKind.Some? ==>
        forall i | 0 <= i < |j.elements| :: PlainTsFits(p.itemKind.value, j.elements[i]))
    else PlainTsFits(p.kind, j)
  }

  lemma KindMeaning(t: ParamType, j: Json)
    ensures HasTsType(TsTypeMap(TypeName(t), None), j) <==> PlainTsFits(t, j)
  {
    if t == ArrayType {
      assert TsTypeMap("array", None) == ArrayOf(TsAny);
    }
  }

  /** The type of a parameter without an interface of its own is the one its kind and element kind call for. */
  lemma PlainTypeMeaning(p: Payload, j: Json)
    ensures HasTsType(PlainType(p), j) <==> PlainParamTsFits(p, j)
  {
    if p.kind == ArrayType && p.itemKind.Some? {
      var item := TypeName(p.itemKind.value);
      assert item != "";
      assert PlainType(p) == ArrayOf(TsTypeMap(item, None));
      if j.Array? {
        forall i | 0 <= i < |j.elements|
          ensures HasTsType(TsTypeMap(item, None), j.elements[i]) <==> PlainTsFits(p.itemKind.value, j.elements[i])
        {
          KindMeaning(p.itemKind.value, j.elements[i]);
        }
      }
    } else if p.kind == ArrayType {
      assert PlainType(p) == ArrayOf(TsAny);
    } else {
      KindMeaning(p.kind, j);
      assert PlainType(p) == TsTypeMap(TypeName(p.kind), None);
    }
  }

  function NamedType(t: ParamType): Option<TsType> {
    match t
    case IntType => Some(TsNumber)
    case DoubleType => Some(TsNumber)
    case StringType => Some(TsString)
    case BooleanType => Some(TsBoolean)
    case _ => None
  }

  /** Integers and doubles are `number`, strings `string`, booleans `boolean`, and arrays of them arrays of these. */
  lemma PlainTypes(p: Payload)
    ensures NamedType(p.kind).Some? ==> PlainType(p) == NamedType(p.kind).value
    ensures p.kind == ArrayType && p.itemKind.Some? && NamedType(p.itemKind.value).Some? ==>
              PlainType(p) == ArrayOf(NamedType(p.itemKind.value).value)
  {
  }

  /** A field says the parameter's name, whether it may be left out, and its description unless that is empty. */
  lemma {:induction false} FieldsDescribe(parent: string, params: Forest<Payload>, i: nat)
    requires i < |FieldsOf(parent, params)|
    ensures exists p :: IsRoot(params, i, p)
              && FieldsOf(parent, params)[i].name == p.name && (FieldsOf(parent, params)[i].optional <==> !p.required)
              && (FieldsOf(parent, params)[i].comment == if p.description == Some("") then None else p.description)
  {
    var rest := FieldsOf(parent, params.rest);
    if i == 0 {
      assert IsRoot(params, 0, params.root);
    } else {
      assert FieldsOf(parent, params)[i] == rest[i - 1];
      FieldsDescribe(parent, params.rest, i - 1);
      var p :| IsRoot(params.rest, i - 1, p) && rest[i - 1].name == p.name && (rest[i - 1].optional <==> !p.required)
               && (rest[i - 1].comment == if p.description == Some("") then None else p.description);
      assert IsRoot(params, i, p);
    }
  }

  /** `p` is root number `i`. */
  predicate IsRoot(params: Forest<Payload>, i: nat, p: Payload)
    decreases params
  {
    params.Tree? && if i == 0 then params.root == p else IsRoot(params.rest, i - 1, p)
  }

  // ---- interfaces ----

  /** A value has the type of a field list: every field that is present has its type, and every field that is not
      optional is present. Other members do not matter. Interface names are looked up among the first `n`
      declarations. */
  predicate HasFields(list: seq<Interface>, n: nat, fields: seq<Field>, members: map<string, Json>)
    requires n <= |list|
    decreases n, 2, |fields|
  {
    fields != [] ==>
      && (if fields[0].name in members then HasFieldType(list, n, fields[0].kind, members[fields[0].name])
          else fields[0].optional)
      && HasFields(list, n, fields[1..], members)
  }

  predicate HasInterface(list: seq<Interface>, n: nat, name: string, j: Json)
    requires n <= |list|
    decreases n, 0, 0
  {
    var i := Find(list, n, name);
    j.Object? && (i < n ==> HasFields(list, i, list[i].fields, j.fields))
  }

  predicate HasFieldType(list: seq<Interface>, n: nat, t: TsType, j: Json)
    requires n <= |list|
    decreases n, 1, 0
  {
    match t
    case Named(name) => HasInterface(list, n, name, j)
    case ArrayOf(Named(name)) =>
      j.Array? && forall i | 0 <= i < |j.elements| :: HasInterface(list, n, name, j.elements[i])
    case _ => HasTsType(t, j)
  }

  // ---- the parameters as TypeScript can express them ----

  /** Every parameter that is present fits, and every required one is present. */
  predicate RecordTsFits(f: Forest<Payload>, members: map<string, Json>)
    decreases f, 0
  {
    match f
    case Empty => true
    case Tree(p, kids, rest) =>
      && (if p.name in members then TsFits(p, kids, members[p.name]) else !p.required)
      && RecordTsFits(rest, members)
  }

  predicate TsFits(p: Payload, kids: Forest<Payload>, j: Json)
    decreases kids, 1
  {
    if kids.Tree? && p.kind == ObjectType then j.Object? && RecordTsFits(kids, j.fields)
    else if kids.Tree? && p.kind == ArrayType && p.itemKind == Some(ObjectType) then
      j.Array? && forall i | 0 <= i < |j.elements| :: j.elements[i].Object? && RecordTsFits(kids, j.elements[i].fields)
    else PlainParamTsFits(p, j)
  }

  // ---- the interfaces mean the parameters ----

  lemma PlainFieldType(list: seq<Interface>, n: nat, p: Payload, j: Json)
    requires n <= |list|
    ensures HasFieldType(list, n, PlainType(p), j) <==> PlainParamTsFits(p, j)
  {
    PlainTypeMeaning(p, j);
    PlainTypeHasNoRef(p);
  }

  lemma {:induction false} FieldsMean(list: seq<Interface>, lo: nat, n: nat, parent: string, params: Forest<Payload>,
                                      members: map<string, Json>)
    requires DistinctInterfaces(list) && n <= |list| && Cap(parent) == parent
    requires Lies(list, lo, Nested(parent, params)) && lo + |Nested(parent, params)| <= n
    ensures HasFields(list, n, FieldsOf(parent, params), members) <==> RecordTsFits(params, members)
    decreases Size(params), 1
  {
    match params
    case Empty =>
    case Tree(p, kids, rest) =>
      var fields, f := FieldsOf(parent, params), FieldOf(parent, p, kids);
      assert fields[0] == f && fields[1..] == FieldsOf(parent, rest);
      if Expanded(p, kids) {
        ExpandedMeans(list, lo, n, parent, p, kids, rest, members);
      } else {
        assert Nested(parent, params) == Nested(parent, rest);
        FieldsMean(list, lo, n, parent, rest, members);
        if p.name in members {
          PlainFieldType(list, n, p, members[p.name]);
        }
      }
  }

  /** The type of a field with an interface of its own, given what that interface means. */
  lemma ExpandedFieldType(list: seq<Interface>, n: nat, parent: string, p: Payload, kids: Forest<Payload>, j: Json)
    requires n <= |list| && Expanded(p, kids)
    requires forall o :: HasInterface(list, n, ChildName(parent, p), o) <==> o.Object? && RecordTsFits(kids, o.fields)
    ensures HasFieldType(list, n, FieldOf(parent, p, kids).kind, j) <==> TsFits(p, kids, j)
  {
  }

  lemma {:induction false} ExpandedMeans(list: seq<Interface>, lo: nat, n: nat, parent: string, p: Payload,
                                         kids: Forest<Payload>, rest: Forest<Payload>, members: map<string, Json>)
    requires DistinctInterfaces(list) && n <= |list| && Cap(parent) == parent && Expanded(p, kids)
    requires var all := Interfaces(ChildName(parent, p), kids) + Nested(parent, rest);
      Lies(list, lo, all) && lo + |all| <= n
    ensures p.name in members ==>
              (HasFieldType(list, n, FieldOf(parent, p, kids).kind, members[p.name]) <==>
                TsFits(p, kids, members[p.name]))
    ensures HasFields(list, n, FieldsOf(parent, rest), members) <==> RecordTsFits(rest, members)
    decreases 1 + Size(kids) + Size(rest), 0
  {
    var child := ChildName(parent, p);
    var last := lo + |Nested(child, kids)|;
    ChildCapped(parent, p);
    SegmentParts(list, lo, Nested(child, kids), Interface(child, FieldsOf(child, kids)), Nested(parent, rest));
    FindUnique(list, n, last, child);
    FieldsMean(list, last + 1, n, parent, rest, members);
    forall o ensures HasInterface(list, n, child, o) <==> o.Object? && RecordTsFits(kids, o.fields) {
      if o.Object? {
        FieldsMean(list, lo, last, child, kids, o.fields);
      }
    }
    if p.name in members {
      ExpandedFieldType(list, n, parent, p, kids, members[p.name]);
    }
  }

  /** With distinct interface names, the last interface is the type of exactly the records that fit the parameters as
      TypeScript can express them. */
  lemma InterfacesMean(name: string, params: Forest<Payload>, members: map<string, Json>)
    requires DistinctPaths(params)
    ensures var list := Interfaces(name, params);
      HasFields(list, |list| - 1, list[|list| - 1].fields, members) <==> RecordTsFits(params, members)
  {
    var list, nested := Interfaces(name, params), Nested(Cap(name), params);
    InterfacesDistinctIff(name, params);
    assert Lies(list, 0, nested);
    CapIdempotent(name);
    FieldsMean(list, 0, |list| - 1, Cap(name), params, members);
  }

  // ---- what the schema lets pass has the type ----

  lemma PlainDirectTsFits(p: Payload, kids: Forest<Payload>, j: Json)
    requires Direct(p, kids, j) && !Expanded(p, kids)
    ensures PlainParamTsFits(p, j)
  {
    if p.kind == ArrayType && p.itemKind.Some? {
      forall i | 0 <= i < |j.elements| ensures PlainTsFits(p.itemKind.value, j.elements[i]) {
      }
    }
  }

  lemma {:induction false} DirectTsFits(p: Payload, kids: Forest<Payload>, j: Json)
    requires Direct(p, kids, j)
    ensures TsFits(p, kids, j)
    decreases kids, 1
  {
    if !Expanded(p, kids) {
      PlainDirectTsFits(p, kids, j);
    } else if p.kind == ObjectType {
      EachDirectTsFits(kids, j.fields);
    } else {
      forall i | 0 <= i < |j.elements| ensures RecordTsFits(kids, j.elements[i].fields) {
        EachDirectTsFits(kids, j.elements[i].fields);
      }
    }
  }

  lemma {:induction false} EachDirectTsFits(f: Forest<Payload>, members: map<string, Json>)
    requires EachDirect(f, members)
    ensures RecordTsFits(f, members)
    decreases f, 0
  {
    match f
    case Empty =>
    case Tree(p, kids, rest) =>
      EachDirectTsFits(rest, members);
      if p.name in members {
        DirectTsFits(p, kids, members[p.name]);
      }
  }

  /** Every value that passes the generated schema has the generated type, where interface names are distinct and every
      parameter covers the last sibling of its name; distinct sibling names are enough for the latter. */
  lemma ValidatedHasType(name: string, params: Forest<Payload>, j: Json)
    requires DistinctPaths(params) && Consistent(params) && Validates(RootSchema(params), j)
    ensures var list := Interfaces(name, params);
      j.Object? && HasFields(list, |list| - 1, list[|list| - 1].fields, j.fields)
  {
    EveryParameterCountsIff(params);
    EachDirectTsFits(params, j.fields);
    InterfacesMean(name, params, j.fields);
  }

  /** A single parameter: what its schema lets pass has its type. */
  lemma ParameterHasType(p: Payload, kids: Forest<Payload>, j: Json)
    requires !Expanded(p, kids) && Validates(ParamSchema(p, kids), j)
    ensures HasTsType(PlainType(p), j)
  {
    ParamMeaning(p, kids, j);
    PlainTypeMeaning(p, j);
    if p.kind == ArrayType && p.itemKind.Some? {
      forall i | 0 <= i < |j.elements| ensures PlainTsFits(p.itemKind.value, j.elements[i]) {
      }
    }
  }
}
