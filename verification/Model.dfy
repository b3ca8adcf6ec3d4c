/** The stored entities of the API store, shared by every other module. */
module Model {

  /** Primary keys. Every allocated key is positive; 0 is never a key. */
  type Id = nat

  datatype Option<+T> = None | Some(value: T)

  datatype ParamType =
    StringType | IntType | DoubleType | BooleanType | ArrayType | ObjectType | BinaryType

  datatype Location = Query | Path | Header | Cookie | Body

  datatype HttpMethod = GET | POST | PUT | DELETE | PATCH

  datatype ApiLevel = P0 | P1 | P2 | P3 | P4

  /** What a root parameter is grouped by: request parameters by location, response parameters by status code. */
  datatype Key = At(location: Location) | On(status: int)

  /** The two parameter tables of a layer. */
  datatype Side = Request | Response

  /** Every column of a parameter row that is neither a key nor a timestamp. */
  datatype Payload = Payload(
    key: Key,
    name: string,
    kind: ParamType,
    required: bool,
    defaultValue: Option<string>,
    description: Option<string>,
    example: Option<string>,
    itemKind: Option<ParamType>)
  {
    /** Only objects and arrays of objects may carry child parameters. */
    predicate Expandable() {
      kind == ObjectType || (kind == ArrayType && itemKind == Some(ObjectType))
    }
  }

  datatype Row = Row(owner: Id, parent: Option<Id>, payload: Payload)

  /** A live API (scope: its service) or an API draft (scope: its iteration). */
  datatype Api = Api(
    scope: Id,
    owner: Id,
    category: Option<Id>,
    name: string,
    verb: HttpMethod,
    path: string,
    description: Option<string>,
    level: ApiLevel,
    enabled: bool)

  datatype Service = Service(
    uuid: string,
    owner: Id,
    maintainers: set<Id>,
    version: string,
    description: Option<string>,
    deleted: bool)

  datatype Iteration = Iteration(
    service: Id,
    creator: Id,
    version: Option<string>,
    description: Option<string>,
    committed: bool)

  function TypeName(t: ParamType): string {
    match t
    case StringType => "string"
    case IntType => "int"
    case DoubleType => "double"
    case BooleanType => "boolean"
    case ArrayType => "array"
    case ObjectType => "object"
    case BinaryType => "binary"
  }

  function ParseType(s: string): (r: Option<ParamType>)
    ensures r.Some? ==> TypeName(r.value) == s
    ensures r.None? ==> forall t :: TypeName(t) != s
  {
    if s == "string" then Some(StringType)
    else if s == "int" then Some(IntType)
    else if s == "double" then Some(DoubleType)
    else if s == "boolean" then Some(BooleanType)
    else if s == "array" then Some(ArrayType)
    else if s == "object" then Some(ObjectType)
    else if s == "binary" then Some(BinaryType)
    else None
  }

  function LocationName(l: Location): string {
    match l
    case Query => "query"
    case Path => "path"
    case Header => "header"
    case Cookie => "cookie"
    case Body => "body"
  }

  function ParseLocation(s: string): (r: Option<Location>)
    ensures r.Some? ==> LocationName(r.value) == s
    ensures r.None? ==> forall l :: LocationName(l) != s
  {
    if s == "query" then Some(Query)
    else if s == "path" then Some(Path)
    else if s == "header" then Some(Header)
    else if s == "cookie" then Some(Cookie)
    else if s == "body" then Some(Body)
    else None
  }

  function VerbName(v: HttpMethod): string {
    match v
    case GET => "GET"
    case POST => "POST"
    case PUT => "PUT"
    case DELETE => "DELETE"
    case PATCH => "PATCH"
  }

  /** An unknown method name is stored as GET. */
  function ParseVerb(s: string): (v: HttpMethod)
    ensures VerbName(v) == s || (v == GET && forall w :: VerbName(w) != s)
  {
    if s == "POST" then POST
    else if s == "PUT" then PUT
    else if s == "DELETE" then DELETE
    else if s == "PATCH" then PATCH
    else GET
  }

  function LevelName(l: ApiLevel): string {
    match l
    case P0 => "P0"
    case P1 => "P1"
    case P2 => "P2"
    case P3 => "P3"
    case P4 => "P4"
  }

  /** An unknown level name is stored as P2. */
  function ParseLevel(s: string): (l: ApiLevel)
    ensures LevelName(l) == s || (l == P2 && forall k :: LevelName(k) != s)
  {
    if s == "P0" then P0
    else if s == "P1" then P1
    else if s == "P3" then P3
    else if s == "P4" then P4
    else P2
  }

  /** The names as they are sent and stored, and what they are read as. */
  lemma KnownVerbs(v: HttpMethod)
    ensures ParseVerb(VerbName(v)) == v
    ensures [VerbName(GET), VerbName(POST), VerbName(PUT), VerbName(DELETE), VerbName(PATCH)]
         == ["GET", "POST", "PUT", "DELETE", "PATCH"]
  {
  }

  lemma KnownLevels(l: ApiLevel)
    ensures ParseLevel(LevelName(l)) == l
    ensures [LevelName(P0), LevelName(P1), LevelName(P2), LevelName(P3), LevelName(P4)]
      == ["P0", "P1", "P2", "P3", "P4"]
  {
  }

  lemma KnownLocations(l: Location)
    ensures ParseLocation(LocationName(l)) == Some(l)
    ensures [LocationName(Query), LocationName(Path), LocationName(Header), LocationName(Cookie), LocationName(Body)]
         == ["query", "path", "header", "cookie", "body"]
  {
  }

  lemma KnownTypes(t: ParamType)
    ensures ParseType(TypeName(t)) == Some(t)
    ensures [TypeName(StringType), TypeName(IntType), TypeName(DoubleType), TypeName(BooleanType)]
         == ["string", "int", "double", "boolean"]
    ensures [TypeName(ArrayType), TypeName(ObjectType), TypeName(BinaryType)] == ["array", "object", "binary"]
  {
  }
}
