/** The TypeScript interfaces and the JSON Schema of one parameter forest describe the same skeleton. */
module Agreement {
  import opened Model
  import opened Forests
  import S = Schemas
  import T = TypeScript

  datatype Kind = Plain | Record | Records

  /** A field of a skeleton: its name, whether it is required, and whether it nests. */
  datatype Bone = Bone(name: string, required: bool, kind: Kind)

  /** The skeleton read off the parameters. */
  function SkeletonOf(params: Forest<Payload>): Forest<Bone> {
    match params
    case Empty => Empty
    case Tree(p, kids, rest) =>
      if T.Expanded(p, kids) then
        Tree(Bone(p.name, p.required, if p.kind == ArrayType then Records else Record), SkeletonOf(kids),
          SkeletonOf(rest))
      else Tree(Bone(p.name, p.required, Plain), Empty, SkeletonOf(rest))
  }

  /** The skeleton of unfolded interfaces. */
  function FromShape(f: Forest<T.Slot>): Forest<Bone> {
    match f
    case Empty => Empty
    case Tree(s, kids, rest) =>
      Tree(Bone(s.name, !s.optional, if s.kind.Single? then Record else if s.kind.Many? then Records else Plain),
           FromShape(kids), FromShape(rest))
  }

  lemma {:induction false} ShapeSkeleton(params: Forest<Payload>)
    ensures FromShape(T.ShapeOf(params)) == SkeletonOf(params)
  {
    match params
    case Empty =>
    case Tree(_, kids, rest) =>
      ShapeSkeleton(kids);
      ShapeSkeleton(rest);
  }

  function Names(required: Option<seq<string>>): seq<string> {
    if required.Some? then required.value else []
  }

  /** The skeleton of a dictionary of property schemas with a list of required names. */
  function FromSchema(d: S.Dict, required: seq<string>): Forest<Bone>
    decreases d
  {
    match d
    case NoEntry => Empty
    case Entry(name, s, rest) =>
      var tail := FromSchema(rest, required);
      if s.kind == S.TObject && s.properties.Some? then
        Tree(Bone(name, name in required, Record), FromSchema(s.properties.value, Names(s.required)), tail)
      else if s.kind == S.TArray && s.items.Some? && s.items.value.kind == S.TObject
        && s.items.value.properties.Some? then
        Tree(Bone(name, name in required, Records),
             FromSchema(s.items.value.properties.value, Names(s.items.value.required)), tail)
      else Tree(Bone(name, name in required, Plain), Empty, tail)
  }

  // ---- with distinct sibling names the dictionary keeps the order of the parameters ----

  function Ordered(params: Forest<Payload>): S.Dict {
    match params
    case Empty => S.NoEntry
    case Tree(p, kids, rest) => S.Entry(p.name, S.ParamSchema(p, kids), Ordered(rest))
  }

  function Join(d: S.Dict, e: S.Dict): S.Dict {
    match d
    case NoEntry => e
    case Entry(n, s, rest) => S.Entry(n, s, Join(rest, e))
  }

  lemma {:induction false} AssignNew(d: S.Dict, name: string, s: S.Schema)
    requires S.Lookup(d, name).None?
    ensures S.Assign(d, name, s) == Join(d, S.Entry(name, s, S.NoEntry))
  {
    match d
    case NoEntry =>
    case Entry(_, _, rest) => AssignNew(rest, name, s);
  }

  lemma {:induction false} JoinAssociative(d: S.Dict, e: S.Dict, f: S.Dict)
    ensures Join(Join(d, e), f) == Join(d, Join(e, f))
  {
    match d
    case NoEntry =>
    case Entry(_, _, rest) => JoinAssociative(rest, e, f);
  }

  predicate Apart(params: Forest<Payload>, d: S.Dict) {
    match params
    case Empty => true
    case Tree(p, _, rest) => S.Lookup(d, p.name).None? && Apart(rest, d)
  }

  lemma {:induction false} ApartAssigned(params: Forest<Payload>, d: S.Dict, name: string, s: S.Schema)
    requires Apart(params, d) && S.NoneNamed(params, name)
    ensures Apart(params, S.Assign(d, name, s))
  {
    match params
    case Empty =>
    case Tree(p, _, rest) =>
      S.LookupAssigned(d, name, s, p.name);
      ApartAssigned(rest, d, name, s);
  }

  lemma {:induction false} PropertiesInOrder(params: Forest<Payload>, d: S.Dict)
    requires S.DistinctNames(params) && Apart(params, d)
    ensures S.PropertiesOf(params, d) == Join(d, Ordered(params))
    decreases params
  {
    match params
    case Empty => JoinEmpty(d);
    case Tree(p, kids, rest) =>
      var s := S.ParamSchema(p, kids);
      AssignNew(d, p.name, s);
      ApartAssigned(rest, d, p.name, s);
      PropertiesInOrder(rest, S.Assign(d, p.name, s));
      JoinAssociative(d, S.Entry(p.name, s, S.NoEntry), Ordered(rest));
  }

  lemma {:induction false} JoinEmpty(d: S.Dict)
    ensures Join(d, S.NoEntry) == d
  {
    match d
    case NoEntry =>
    case Entry(_, _, rest) => JoinEmpty(rest);
  }

  lemma {:induction false} ApartEmpty(params: Forest<Payload>)
    ensures Apart(params, S.NoEntry)
  {
    match params
    case Empty =>
    case Tree(_, _, rest) => ApartEmpty(rest);
  }

  lemma DictionaryIsOrdered(params: Forest<Payload>)
    requires S.DistinctNames(params)
    ensures S.PropertiesOf(params, S.NoEntry) == Ordered(params)
  {
    ApartEmpty(params);
    PropertiesInOrder(params, S.NoEntry);
  }

  /** The required list names exactly the required parameters. */
  predicate RequiredAgree(params: Forest<Payload>, required: seq<string>) {
    match params
    case Empty => true
    case Tree(p, _, rest) => (p.name in required <==> p.required) && RequiredAgree(rest, required)
  }

  lemma {:induction false} RequiredNamed(params: Forest<Payload>, name: string)
    requires S.NoneNamed(params, name)
    ensures name !in S.RequiredOf(params)
  {
    match params
    case Empty =>
    case Tree(_, _, rest) => RequiredNamed(rest, name);
  }

  lemma {:induction false} RequiredAgreeMore(params: Forest<Payload>, required: seq<string>, name: string)
    requires RequiredAgree(params, required) && S.NoneNamed(params, name)
    ensures RequiredAgree(params, [name] + required)
  {
    match params
    case Empty =>
    case Tree(_, _, rest) => RequiredAgreeMore(rest, required, name);
  }

  lemma {:induction false} RequiredListAgrees(params: Forest<Payload>)
    requires S.DistinctNames(params)
    ensures RequiredAgree(params, S.RequiredOf(params))
  {
    match params
    case Empty =>
    case Tree(p, _, rest) =>
      RequiredListAgrees(rest);
      RequiredNamed(rest, p.name);
      RequiredAgreeMore(rest, S.RequiredOf(rest), p.name);
      assert S.RequiredOf(params) == (if p.required then [p.name] else []) + S.RequiredOf(rest);
      assert [] + S.RequiredOf(rest) == S.RequiredOf(rest);
  }

  /** How the schema of a parameter nests. */
  lemma SchemaNesting(p: Payload, kids: Forest<Payload>)
    ensures var s := S.ParamSchema(p, kids);
      if !T.Expanded(p, kids) then
        && !(s.kind == S.TObject && s.properties.Some?)
        && !(s.kind == S.TArray && s.items.Some? && s.items.value.kind == S.TObject && s.items.value.properties.Some?)
      else if p.kind == ArrayType then
        && s.kind == S.TArray && s.items.Some? && s.items.value.kind == S.TObject
        && s.items.value.properties == Some(S.PropertiesOf(kids, S.NoEntry))
        && Names(s.items.value.required) == S.RequiredOf(kids)
      else
        && s.kind == S.TObject && s.properties == Some(S.PropertiesOf(kids, S.NoEntry))
        && Names(s.required) == S.RequiredOf(kids)
  {
  }

  lemma {:induction false} OrderedSkeleton(params: Forest<Payload>, required: seq<string>)
    requires S.DistinctNames(params) && RequiredAgree(params, required)
    ensures FromSchema(Ordered(params), required) == SkeletonOf(params)
    decreases params
  {
    match params
    case Empty =>
    case Tree(p, kids, rest) =>
      OrderedSkeleton(rest, required);
      DictionaryIsOrdered(kids);
      RequiredListAgrees(kids);
      OrderedSkeleton(kids, S.RequiredOf(kids));
      SchemaNesting(p, kids);
  }

  /** The skeleton of the generated root schema is that of the parameters. */
  lemma SchemaSkeleton(params: Forest<Payload>)
    requires S.DistinctNames(params)
    ensures var s := S.RootSchema(params);
      FromSchema(s.properties.value, Names(s.required)) == SkeletonOf(params)
  {
    DictionaryIsOrdered(params);
    RequiredListAgrees(params);
    OrderedSkeleton(params, S.RequiredOf(params));
  }

  /**
   * With distinct sibling names and distinct interface names, the interfaces and the schema generated from the same
   * parameters have the same nested field names, the same arrays of objects and the same required fields at every
   * level.
   */
  lemma OutputsAgree(name: string, params: Forest<Payload>)
    requires S.DistinctNames(params) && T.DistinctInterfaces(T.Interfaces(name, params))
    ensures var list, s := T.Interfaces(name, params), S.RootSchema(params);
      FromShape(T.Unfold(list, |list| - 1, list[|list| - 1].fields))
        == FromSchema(s.properties.value, Names(s.required))
  {
    T.InterfacesUnfold(name, params);
    ShapeSkeleton(params);
    SchemaSkeleton(params);
  }
}
