/** The OpenAPI document of a service: operations in `paths`, body schemas in `components`, references between them. */
module OpenApi {
  import opened Model
  import opened Forests
  import opened Schemas
  import opened Sequences
  import D = Decimals

  /** An API with its fetched parameters: by location, and by status code in the order of the fetch. */
  datatype ApiDoc = ApiDoc(
    name: string,
    path: string,
    verb: HttpMethod,
    description: Option<string>,
    enabled: bool,
    byLocation: map<Location, Forest<Payload>>,
    byStatus: seq<(int, Forest<Payload>)>)

  datatype Parameter = Parameter(name: string, location: Location, required: bool, schema: Schema)

  /** `body` and `responses` hold the component names that the operation's references point to. */
  datatype Operation = Operation(
    id: string,
    description: Option<string>,
    parameters: seq<Parameter>,
    body: Option<string>,
    responses: map<int, string>,
    deprecated: bool)

  type Paths = map<string, map<HttpMethod, Operation>>

  type Components = map<string, Schema>

  function ParamsAt(api: ApiDoc, l: Location): Forest<Payload> {
    if l in api.byLocation then api.byLocation[l] else Empty
  }

  // ---- component names ----

  function BodyName(comp: string -> string, api: ApiDoc): string {
    comp(api.name) + "Request"
  }

  function ResponseName(comp: string -> string, api: ApiDoc, status: int): string {
    comp(api.name) + "Response" + (if status == 200 then "" else D.Text(status))
  }

  /** A schema registered under a component name. */
  datatype Write = Write(name: string, params: Forest<Payload>)

  function BodyWrites(comp: string -> string, api: ApiDoc): seq<Write> {
    if ParamsAt(api, Body).Tree? then [Write(BodyName(comp, api), ParamsAt(api, Body))] else []
  }

  function ResponseWrite(comp: string -> string, api: ApiDoc, i: nat): Write
    requires i < |api.byStatus|
  {
    Write(ResponseName(comp, api, api.byStatus[i].0), api.byStatus[i].1)
  }

  function ResponseWrites(comp: string -> string, api: ApiDoc, n: nat): seq<Write>
    requires n <= |api.byStatus|
  {
    seq(n, i requires 0 <= i < n => ResponseWrite(comp, api, i))
  }

  function WritesOf(comp: string -> string, api: ApiDoc): seq<Write> {
    BodyWrites(comp, api) + ResponseWrites(comp, api, |api.byStatus|)
  }

  /** Every registration made while the document is built, in order. */
  function AllWrites(comp: string -> string, apis: seq<ApiDoc>): seq<Write> {
    if apis == [] then [] else AllWrites(comp, apis[..|apis| - 1]) + WritesOf(comp, apis[|apis| - 1])
  }

  predicate Named(writes: seq<Write>, name: string) {
    exists i :: 0 <= i < |writes| && writes[i].name == name
  }

  predicate LastOfName(writes: seq<Write>, i: nat)
    requires i < |writes|
  {
    forall j | i < j < |writes| :: writes[j].name != writes[i].name
  }

  predicate HeldAt(components: Components, writes: seq<Write>, i: nat) {
    i < |writes| ==>
      && writes[i].name in components
      && (LastOfName(writes, i) ==> components[writes[i].name] == RootSchema(writes[i].params))
  }

  /** The components hold exactly the registered names, each with the schema of the last writer of that name. */
  ghost predicate LastWriterWins(components: Components, writes: seq<Write>) {
    && (forall name | name in components :: Named(writes, name))
    && (forall i: nat {:trigger HeldAt(components, writes, i)} :: HeldAt(components, writes, i))
  }

  lemma RegisterNext(components: Components, writes: seq<Write>, w: Write)
    requires LastWriterWins(components, writes)
    ensures LastWriterWins(components[w.name := RootSchema(w.params)], writes + [w])
  {
    var components', writes' := components[w.name := RootSchema(w.params)], writes + [w];
    assert writes'[|writes|] == w;
    forall name | name in components' ensures Named(writes', name) {
      if name != w.name {
        assert Named(writes, name);
        var i :| 0 <= i < |writes| && writes[i].name == name;
        assert writes'[i] == writes[i];
      }
    }
    forall i: nat ensures HeldAt(components', writes', i) {
      if i < |writes| {
        assert HeldAt(components, writes, i) && writes'[i] == writes[i];
        if LastOfName(writes', i) {
          forall j | i < j < |writes| ensures writes[j].name != writes[i].name {
            assert writes'[j] == writes[j];
          }
        }
      }
    }
  }

  // ---- closed references ----

  predicate OperationResolves(op: Operation, components: Components) {
    && (op.body.Some? ==> op.body.value in components)
    && forall status | status in op.responses :: op.responses[status] in components
  }

  ghost predicate ReferencesResolve(paths: Paths, components: Components) {
    forall path, verb | path in paths && verb in paths[path] :: OperationResolves(paths[path][verb], components)
  }

  // ---- generation ----

  /** The operation an API contributes. */
  ghost predicate IsOperationOf(comp: string -> string, api: ApiDoc, op: Operation) {
    && op.id == api.name && op.description == api.description && op.deprecated == !api.enabled
    && op.body == (if ParamsAt(api, Body).Tree? then Some(BodyName(comp, api)) else None)
    && (forall status :: status in op.responses <==> HasStatus(api, |api.byStatus|, status))
    && (forall status | status in op.responses :: op.responses[status] == ResponseName(comp, api, status))
    && op.parameters == ParametersOf(api)
  }

  predicate HasStatus(api: ApiDoc, n: nat, status: int)
    requires n <= |api.byStatus|
  {
    exists i :: 0 <= i < n && api.byStatus[i].0 == status
  }

  function ParametersAt(l: Location, f: Forest<Payload>): seq<Parameter> {
    match f
    case Empty => []
    case Tree(p, kids, rest) => [Parameter(p.name, l, p.required, ParamSchema(p, kids))] + ParametersAt(l, rest)
  }

  function ParametersOf(api: ApiDoc): seq<Parameter> {
    ParametersAt(Query, ParamsAt(api, Query)) + ParametersAt(Path, ParamsAt(api, Path))
    + ParametersAt(Header, ParamsAt(api, Header)) + ParametersAt(Cookie, ParamsAt(api, Cookie))
  }

  method AddParameters(parameters: seq<Parameter>, l: Location, params: Forest<Payload>) returns (more: seq<Parameter>)
    ensures more == parameters + ParametersAt(l, params)
  {
    more := parameters;
    var todo := params;
    while todo.Tree?
      invariant more + ParametersAt(l, todo) == parameters + ParametersAt(l, params)
      decreases todo
    {
      var schema := BuildParamSchema(todo.root, todo.kids);
      more := more + [Parameter(todo.root.name, l, todo.root.required, schema)];
      todo := todo.rest;
    }
    assert more + [] == more;
  }

  /** The responses of the first `n` status codes, each pointing to a component. */
  ghost predicate Responds(comp: string -> string, api: ApiDoc, n: nat, responses: map<int, string>,
                           components: Components)
    requires n <= |api.byStatus|
  {
    && (forall status :: status in responses <==> HasStatus(api, n, status))
    && (forall status | status in responses ::
          responses[status] == ResponseName(comp, api, status) && responses[status] in components)
  }

  lemma RespondsNext(comp: string -> string, api: ApiDoc, n: nat, responses: map<int, string>, components: Components,
                     schema: Schema)
    requires n < |api.byStatus| && Responds(comp, api, n, responses, components)
    ensures var status := api.byStatus[n].0; var name := ResponseName(comp, api, status);
      Responds(comp, api, n + 1, responses[status := name], components[name := schema])
  {
  }

  lemma RegisterResponse(comp: string -> string, api: ApiDoc, n: nat, components: Components, writes: seq<Write>)
    requires n < |api.byStatus| && LastWriterWins(components, writes + ResponseWrites(comp, api, n))
    ensures var w := ResponseWrite(comp, api, n);
      LastWriterWins(components[w.name := RootSchema(w.params)], writes + ResponseWrites(comp, api, n + 1))
  {
    var w := ResponseWrite(comp, api, n);
    RegisterNext(components, writes + ResponseWrites(comp, api, n), w);
    assert ResponseWrites(comp, api, n + 1) == ResponseWrites(comp, api, n) + [w];
    Regroup(writes, ResponseWrites(comp, api, n), [w]);
  }

  /** After the first `n` status codes: what is registered, and what the responses point to. */
  ghost predicate Answered(comp: string -> string, api: ApiDoc, n: nat, writes: seq<Write>, before: Components,
                           responses: map<int, string>, components: Components)
    requires n <= |api.byStatus|
  {
    && LastWriterWins(components, writes + ResponseWrites(comp, api, n))
    && before.Keys <= components.Keys
    && Responds(comp, api, n, responses, components)
  }

  lemma AnsweredFirst(comp: string -> string, api: ApiDoc, writes: seq<Write>, before: Components)
    requires LastWriterWins(before, writes)
    ensures Answered(comp, api, 0, writes, before, map[], before)
  {
    assert writes + ResponseWrites(comp, api, 0) == writes;
  }

  lemma AnsweredNext(comp: string -> string, api: ApiDoc, n: nat, writes: seq<Write>, before: Components,
                     responses: map<int, string>, components: Components)
    requires n < |api.byStatus| && Answered(comp, api, n, writes, before, responses, components)
    ensures var w := ResponseWrite(comp, api, n);
      Answered(comp, api, n + 1, writes, before, responses[api.byStatus[n].0 := w.name],
        components[w.name := RootSchema(w.params)])
  {
    var w := ResponseWrite(comp, api, n);
    RespondsNext(comp, api, n, responses, components, RootSchema(w.params));
    RegisterResponse(comp, api, n, components, writes);
  }

  /** Register the response schemas of an API, one per status code. */
  method BuildResponses(comp: string -> string, api: ApiDoc, components: Components, ghost writes: seq<Write>)
    returns (responses: map<int, string>, components': Components)
    requires LastWriterWins(components, writes)
    ensures Answered(comp, api, |api.byStatus|, writes, components, responses, components')
  {
    responses, components' := map[], components;
    AnsweredFirst(comp, api, writes, components);
    for n := 0 to |api.byStatus|
      invariant Answered(comp, api, n, writes, components, responses, components')
    {
      var status, params := api.byStatus[n].0, api.byStatus[n].1;
      var name := ResponseName(comp, api, status);
      var schema := BuildRootSchema(params);
      AnsweredNext(comp, api, n, writes, components, responses, components');
      components' := components'[name := schema];
      responses := responses[status := name];
    }
  }

  /** Register the request body schema of an API, if it has body parameters. */
  method BuildBody(comp: string -> string, api: ApiDoc, components: Components, ghost writes: seq<Write>)
    returns (body: Option<string>, components': Components)
    requires LastWriterWins(components, writes)
    ensures LastWriterWins(components', writes + BodyWrites(comp, api))
    ensures components.Keys <= components'.Keys
    ensures body == (if ParamsAt(api, Body).Tree? then Some(BodyName(comp, api)) else None)
    ensures body.Some? ==> body.value in components'
  {
    body, components' := None, components;
    assert writes + [] == writes;
    if ParamsAt(api, Body).Tree? {
      var name := BodyName(comp, api);
      var schema := BuildRootSchema(ParamsAt(api, Body));
      RegisterNext(components', writes, Write(name, ParamsAt(api, Body)));
      components' := components'[name := schema];
      body := Some(name);
    }
  }

  method BuildParameters(api: ApiDoc) returns (parameters: seq<Parameter>)
    ensures parameters == ParametersOf(api)
  {
    parameters := AddParameters([], Query, ParamsAt(api, Query));
    parameters := AddParameters(parameters, Path, ParamsAt(api, Path));
    parameters := AddParameters(parameters, Header, ParamsAt(api, Header));
    parameters := AddParameters(parameters, Cookie, ParamsAt(api, Cookie));
  }

  /** One API: its operation, and its schemas registered. */
  method BuildOperation(comp: string -> string, api: ApiDoc, components: Components, ghost writes: seq<Write>)
    returns (op: Operation, components': Components)
    requires LastWriterWins(components, writes)
    ensures LastWriterWins(components', writes + WritesOf(comp, api))
    ensures components.Keys <= components'.Keys
    ensures IsOperationOf(comp, api, op) && OperationResolves(op, components')
  {
    var parameters := BuildParameters(api);
    var body;
    body, components' := BuildBody(comp, api, components, writes);
    var responses;
    responses, components' := BuildResponses(comp, api, components', writes + BodyWrites(comp, api));
    Regroup(writes, BodyWrites(comp, api), ResponseWrites(comp, api, |api.byStatus|));
    op := Operation(api.name, api.description, parameters, body, responses, !api.enabled);
  }

  predicate IsAt(api: ApiDoc, path: string, verb: HttpMethod) {
    api.path == path && api.verb == verb
  }

  /** The last API with this path and method. */
  predicate LastIndex(apis: seq<ApiDoc>, i: nat, path: string, verb: HttpMethod) {
    i < |apis| && IsAt(apis[i], path, verb) && forall j | i < j < |apis| :: !IsAt(apis[j], path, verb)
  }

  /** Some API put this operation at this path and method, and no later API has the same path and method. */
  ghost predicate LastAt(comp: string -> string, apis: seq<ApiDoc>, path: string, verb: HttpMethod, op: Operation) {
    exists i: nat :: LastIndex(apis, i, path, verb) && IsOperationOf(comp, apis[i], op)
  }

  lemma LastIndexNext(apis: seq<ApiDoc>, n: nat, i: nat, path: string, verb: HttpMethod)
    requires n < |apis| && LastIndex(apis[..n], i, path, verb) && !IsAt(apis[n], path, verb)
    ensures LastIndex(apis[..n + 1], i, path, verb) && apis[..n + 1][i] == apis[..n][i]
  {
    var after := apis[..n + 1];
    forall j | i < j < |after| ensures !IsAt(after[j], path, verb) {
      assert j < n ==> after[j] == apis[..n][j];
    }
  }

  lemma LastAtNext(comp: string -> string, apis: seq<ApiDoc>, n: nat, path: string, verb: HttpMethod, op: Operation)
    requires n < |apis|
    ensures IsAt(apis[n], path, verb) && IsOperationOf(comp, apis[n], op) ==>
      LastAt(comp, apis[..n + 1], path, verb, op)
    ensures LastAt(comp, apis[..n], path, verb, op) && !IsAt(apis[n], path, verb) ==>
      LastAt(comp, apis[..n + 1], path, verb, op)
  {
    var after := apis[..n + 1];
    assert after[n] == apis[n];
    if IsAt(apis[n], path, verb) {
      assert LastIndex(after, n, path, verb);
    } else if LastAt(comp, apis[..n], path, verb, op) {
      var i: nat :| LastIndex(apis[..n], i, path, verb) && IsOperationOf(comp, apis[..n][i], op);
      LastIndexNext(apis, n, i, path, verb);
    }
  }

  predicate HasPath(apis: seq<ApiDoc>, path: string) {
    exists i :: 0 <= i < |apis| && apis[i].path == path
  }

  ghost predicate OperationAt(comp: string -> string, apis: seq<ApiDoc>, paths: Paths, path: string, verb: HttpMethod) {
    path in paths && verb in paths[path] ==> LastAt(comp, apis, path, verb, paths[path][verb])
  }

  /** Every operation is that of the last API with its path and method, every API has one, and there are no other
      paths. */
  ghost predicate Operations(comp: string -> string, apis: seq<ApiDoc>, paths: Paths) {
    && (forall path, verb {:trigger OperationAt(comp, apis, paths, path, verb)} ::
      OperationAt(comp, apis, paths, path, verb))
    && (forall api | api in apis :: api.path in paths && api.verb in paths[api.path])
    && (forall path | path in paths :: HasPath(apis, path))
  }

  /** The path gets an empty entry if it has none; then the operation is stored under its method. */
  function Put(paths: Paths, api: ApiDoc, op: Operation): Paths {
    paths[api.path := (if api.path in paths then paths[api.path] else map[])[api.verb := op]]
  }

  lemma HasPathNext(apis: seq<ApiDoc>, n: nat, path: string)
    requires n < |apis| && (HasPath(apis[..n], path) || apis[n].path == path)
    ensures HasPath(apis[..n + 1], path)
  {
    if apis[n].path == path {
      assert apis[..n + 1][n].path == path;
    } else {
      var i :| 0 <= i < |apis[..n]| && apis[..n][i].path == path;
      assert apis[..n + 1][i].path == path;
    }
  }

  lemma PathsNext(apis: seq<ApiDoc>, n: nat, paths: Paths, op: Operation)
    requires n < |apis|
    requires forall api | api in apis[..n] :: api.path in paths && api.verb in paths[api.path]
    requires forall path | path in paths :: HasPath(apis[..n], path)
    ensures forall api | api in apis[..n + 1] ::
              api.path in Put(paths, apis[n], op) && api.verb in Put(paths, apis[n], op)[api.path]
    ensures forall path | path in Put(paths, apis[n], op) :: HasPath(apis[..n + 1], path)
  {
    forall api | api in apis[..n + 1]
      ensures api.path in Put(paths, apis[n], op) && api.verb in Put(paths, apis[n], op)[api.path]
    {
      assert api == apis[n] || api in apis[..n];
    }
    forall path | path in Put(paths, apis[n], op) ensures HasPath(apis[..n + 1], path) {
      HasPathNext(apis, n, path);
    }
  }

  lemma OperationsNext(comp: string -> string, apis: seq<ApiDoc>, n: nat, paths: Paths, op: Operation)
    requires n < |apis| && Operations(comp, apis[..n], paths) && IsOperationOf(comp, apis[n], op)
    ensures Operations(comp, apis[..n + 1], Put(paths, apis[n], op))
  {
    var paths' := Put(paths, apis[n], op);
    PathsNext(apis, n, paths, op);
    var after := apis[..n + 1];
    forall path, verb ensures OperationAt(comp, after, paths', path, verb) {
      assert OperationAt(comp, apis[..n], paths, path, verb);
      if path in paths' && verb in paths'[path] {
        LastAtNext(comp, apis, n, path, verb, paths'[path][verb]);
      }
    }
  }

  lemma ResolveNext(paths: Paths, api: ApiDoc, op: Operation, components: Components, components': Components)
    requires ReferencesResolve(paths, components) && components.Keys <= components'.Keys
      && OperationResolves(op, components')
    ensures ReferencesResolve(Put(paths, api, op), components')
  {
    var paths' := Put(paths, api, op);
    forall path, verb | path in paths' && verb in paths'[path]
      ensures OperationResolves(paths'[path][verb], components')
    {
      if !(path == api.path && verb == api.verb) {
        assert OperationResolves(paths[path][verb], components);
      }
    }
  }

  /**
   * The document: every reference in `paths` resolves in `components`, a component holds the schema of the last writer
   * of its name, and an operation is that of the last API with its path and method.
   */
  ghost predicate Document(comp: string -> string, apis: seq<ApiDoc>, paths: Paths, components: Components) {
    ReferencesResolve(paths, components) && LastWriterWins(components, AllWrites(comp, apis))
      && Operations(comp, apis, paths)
  }

  lemma DocumentNext(comp: string -> string, apis: seq<ApiDoc>, n: nat, paths: Paths, components: Components,
                     op: Operation, components': Components)
    requires n < |apis| && Document(comp, apis[..n], paths, components)
    requires LastWriterWins(components', AllWrites(comp, apis[..n]) + WritesOf(comp, apis[n]))
    requires components.Keys <= components'.Keys && IsOperationOf(comp, apis[n], op)
      && OperationResolves(op, components')
    ensures Document(comp, apis[..n + 1], Put(paths, apis[n], op), components')
  {
    assert apis[..n + 1][..n] == apis[..n];
    OperationsNext(comp, apis, n, paths, op);
    ResolveNext(paths, apis[n], op, components, components');
  }

  method OpenApiTemplate(comp: string -> string, apis: seq<ApiDoc>) returns (paths: Paths, components: Components)
    ensures Document(comp, apis, paths, components)
  {
    paths, components := map[], map[];
    for n := 0 to |apis|
      invariant Document(comp, apis[..n], paths, components)
    {
      var op, components' := BuildOperation(comp, apis[n], components, AllWrites(comp, apis[..n]));
      DocumentNext(comp, apis, n, paths, components, op, components');
      paths := Put(paths, apis[n], op);
      components := components';
    }
    assert apis[..|apis|] == apis;
  }

  /** An API whose method and path no later API repeats has its own operation in the document; a repeated one is
      lost. */
  lemma OwnOperation(comp: string -> string, apis: seq<ApiDoc>, paths: Paths, i: nat)
    requires Operations(comp, apis, paths) && i < |apis| && LastIndex(apis, i, apis[i].path, apis[i].verb)
    ensures apis[i].path in paths && apis[i].verb in paths[apis[i].path]
    ensures IsOperationOf(comp, apis[i], paths[apis[i].path][apis[i].verb])
  {
    var path, verb := apis[i].path, apis[i].verb;
    assert apis[i] in apis;
    assert OperationAt(comp, apis, paths, path, verb);
    var k: nat :| LastIndex(apis, k, path, verb) && IsOperationOf(comp, apis[k], paths[path][verb]);
    assert k == i;
  }

  // ---- distinct names ----

  predicate DistinctWrites(writes: seq<Write>) {
    forall i, j | 0 <= i < j < |writes| :: writes[i].name != writes[j].name
  }

  /** When component names are pairwise distinct, every registered name resolves to its own schema. */
  lemma OwnSchema(components: Components, writes: seq<Write>, w: Write)
    requires LastWriterWins(components, writes) && DistinctWrites(writes) && w in writes
    ensures w.name in components && components[w.name] == RootSchema(w.params)
  {
    var i :| 0 <= i < |writes| && writes[i] == w;
    assert HeldAt(components, writes, i);
  }

  lemma {:induction false} AllWritesHave(comp: string -> string, apis: seq<ApiDoc>, api: ApiDoc, w: Write)
    requires api in apis && w in WritesOf(comp, api)
    ensures w in AllWrites(comp, apis)
    decreases |apis|
  {
    var before, last := apis[..|apis| - 1], apis[|apis| - 1];
    assert apis == before + [last];
    if api != last {
      AllWritesHave(comp, before, api, w);
    }
  }

  /** Any two registrations of one name have the same schema. */
  ghost predicate AgreeingWrites(writes: seq<Write>) {
    forall i, j | 0 <= i < |writes| && 0 <= j < |writes| && writes[i].name == writes[j].name ::
      RootSchema(writes[i].params) == RootSchema(writes[j].params)
  }

  lemma {:induction false} LastWriteOf(writes: seq<Write>, i: nat) returns (last: nat)
    requires i < |writes|
    ensures i <= last < |writes| && writes[last].name == writes[i].name && LastOfName(writes, last)
    decreases |writes| - i
  {
    if j :| i < j < |writes| && writes[j].name == writes[i].name {
      last := LastWriteOf(writes, j);
    } else {
      last := i;
    }
  }

  /** Every registered name resolves to the schema of each of its writers if and only if the writers of a name agree. */
  lemma OwnSchemasIff(components: Components, writes: seq<Write>)
    requires LastWriterWins(components, writes)
    ensures (forall w | w in writes :: w.name in components && components[w.name] == RootSchema(w.params)) <==>
              AgreeingWrites(writes)
  {
    if AgreeingWrites(writes) {
      forall w | w in writes ensures w.name in components && components[w.name] == RootSchema(w.params) {
        var i: nat :| i < |writes| && writes[i] == w;
        var last := LastWriteOf(writes, i);
        assert HeldAt(components, writes, last);
      }
    } else {
      var i: nat, j: nat :| i < |writes| && j < |writes| && writes[i].name == writes[j].name
                            && RootSchema(writes[i].params) != RootSchema(writes[j].params);
      assert writes[i] in writes && writes[j] in writes;
    }
  }

  lemma {:induction false} WriteHasApi(comp: string -> string, apis: seq<ApiDoc>, w: Write) returns (api: ApiDoc)
    requires w in AllWrites(comp, apis)
    ensures api in apis && w in WritesOf(comp, api)
    decreases |apis|
  {
    var before, last := apis[..|apis| - 1], apis[|apis| - 1];
    if w in WritesOf(comp, last) {
      api := last;
    } else {
      api := WriteHasApi(comp, before, w);
    }
  }

  /** The body of the API and each of its responses resolve to the schema of its own parameters. */
  ghost predicate OwnReferences(comp: string -> string, api: ApiDoc, components: Components) {
    forall w | w in WritesOf(comp, api) :: w.name in components && components[w.name] == RootSchema(w.params)
  }

  /** Every reference of every API resolves to the schema of its own parameters if and only if registrations under one
      component name have the same schema. */
  lemma ReferencesAreOwnIff(comp: string -> string, apis: seq<ApiDoc>, components: Components)
    requires LastWriterWins(components, AllWrites(comp, apis))
    ensures (forall api | api in apis :: OwnReferences(comp, api, components)) <==>
      AgreeingWrites(AllWrites(comp, apis))
  {
    var writes := AllWrites(comp, apis);
    OwnSchemasIff(components, writes);
    if forall api | api in apis :: OwnReferences(comp, api, components) {
      forall w | w in writes ensures w.name in components && components[w.name] == RootSchema(w.params) {
        var api := WriteHasApi(comp, apis, w);
        assert OwnReferences(comp, api, components);
      }
    }
    if AgreeingWrites(writes) {
      forall api | api in apis ensures OwnReferences(comp, api, components) {
        forall w | w in WritesOf(comp, api) ensures w in writes {
          AllWritesHave(comp, apis, api, w);
        }
      }
    }
  }

  /** When component names are pairwise distinct, the body of every API and each of its responses resolve to the schema
      of its own parameters. */
  lemma ReferencesAreOwn(comp: string -> string, apis: seq<ApiDoc>, components: Components, api: ApiDoc)
    requires LastWriterWins(components, AllWrites(comp, apis)) && DistinctWrites(AllWrites(comp, apis)) && api in apis
    ensures ParamsAt(api, Body).Tree? ==>
              BodyName(comp, api) in components && components[BodyName(comp, api)] == RootSchema(ParamsAt(api, Body))
    ensures forall i | 0 <= i < |api.byStatus| ::
              && ResponseName(comp, api, api.byStatus[i].0) in components
              && components[ResponseName(comp, api, api.byStatus[i].0)] == RootSchema(api.byStatus[i].1)
  {
    if ParamsAt(api, Body).Tree? {
      var w := Write(BodyName(comp, api), ParamsAt(api, Body));
      assert w in BodyWrites(comp, api);
      AllWritesHave(comp, apis, api, w);
      OwnSchema(components, AllWrites(comp, apis), w);
    }
    forall i | 0 <= i < |api.byStatus|
      ensures ResponseName(comp, api, api.byStatus[i].0) in components
      ensures components[ResponseName(comp, api, api.byStatus[i].0)] == RootSchema(api.byStatus[i].1)
    {
      var w := ResponseWrite(comp, api, i);
      assert ResponseWrites(comp, api, |api.byStatus|)[i] == w;
      assert w in WritesOf(comp, api);
      AllWritesHave(comp, apis, api, w);
      OwnSchema(components, AllWrites(comp, apis), w);
    }
  }
}
