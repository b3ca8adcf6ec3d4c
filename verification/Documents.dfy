/** What an operation of the OpenAPI document says about its API, read off the API's own parameters. */
module Documents {
  import opened Model
  import opened Forests
  import opened Schemas
  import opened OpenApi
  import D = Decimals

  // ---- parameters ----

  /** The parameters listed at a location, in their order. */
  function EntriesAt(parameters: seq<Parameter>, l: Location): seq<Parameter> {
    if parameters == [] then []
    else (if parameters[0].location == l then [parameters[0]] else []) + EntriesAt(parameters[1..], l)
  }

  /** Entry by entry, the roots of the forest: name, required flag, and a schema that validates exactly the root's
      values. */
  ghost predicate ListsRoots(entries: seq<Parameter>, f: Forest<Payload>)
    decreases f
  {
    match f
    case Empty => entries == []
    case Tree(p, kids, rest) =>
      && entries != [] && entries[0].name == p.name && entries[0].required == p.required
      && (forall j :: Validates(entries[0].schema, j) <==> Conforms(p, kids, j))
      && ListsRoots(entries[1..], rest)
  }

  lemma {:induction false} EntriesAppend(a: seq<Parameter>, b: seq<Parameter>, l: Location)
    ensures EntriesAt(a + b, l) == EntriesAt(a, l) + EntriesAt(b, l)
  {
    if a == [] {
      assert a + b == b;
    } else {
      assert (a + b)[1..] == a[1..] + b;
      EntriesAppend(a[1..], b, l);
    }
  }

  lemma {:induction false} EntriesOfGroup(at: Location, f: Forest<Payload>, l: Location)
    ensures EntriesAt(ParametersAt(at, f), l) == if l == at then ParametersAt(at, f) else []
  {
    match f
    case Empty =>
    case Tree(p, kids, rest) =>
      EntriesOfGroup(at, rest, l);
      assert ParametersAt(at, f)[1..] == ParametersAt(at, rest);
  }

  lemma {:induction false} GroupListsRoots(at: Location, f: Forest<Payload>)
    ensures ListsRoots(ParametersAt(at, f), f)
  {
    match f
    case Empty =>
    case Tree(p, kids, rest) =>
      GroupListsRoots(at, rest);
      assert ParametersAt(at, f)[1..] == ParametersAt(at, rest);
      forall j ensures Validates(ParametersAt(at, f)[0].schema, j) <==> Conforms(p, kids, j) {
        ParamMeaning(p, kids, j);
      }
  }

  lemma EntriesOfApi(api: ApiDoc, l: Location)
    ensures EntriesAt(ParametersOf(api), l) == if l == Body then [] else ParametersAt(l, ParamsAt(api, l))
  {
    var query, path := ParametersAt(Query, ParamsAt(api, Query)), ParametersAt(Path, ParamsAt(api, Path));
    var header, cookie := ParametersAt(Header, ParamsAt(api, Header)), ParametersAt(Cookie, ParamsAt(api, Cookie));
    EntriesAppend(query + path + header, cookie, l);
    EntriesAppend(query + path, header, l);
    EntriesAppend(query, path, l);
    EntriesOfGroup(Query, ParamsAt(api, Query), l);
    EntriesOfGroup(Path, ParamsAt(api, Path), l);
    EntriesOfGroup(Header, ParamsAt(api, Header), l);
    EntriesOfGroup(Cookie, ParamsAt(api, Cookie), l);
  }

  /** Every location other than body lists exactly its own roots, in order; nothing is listed at body. */
  ghost predicate ParametersMean(api: ApiDoc, op: Operation) {
    && EntriesAt(op.parameters, Body) == []
    && forall l: Location | l != Body :: ListsRoots(EntriesAt(op.parameters, l), ParamsAt(api, l))
  }

  lemma ParametersAreRoots(comp: string -> string, api: ApiDoc, op: Operation)
    requires IsOperationOf(comp, api, op)
    ensures ParametersMean(api, op)
  {
    EntriesOfApi(api, Body);
    forall l: Location | l != Body ensures ListsRoots(EntriesAt(op.parameters, l), ParamsAt(api, l)) {
      EntriesOfApi(api, l);
      GroupListsRoots(l, ParamsAt(api, l));
    }
  }

  // ---- component names of one API ----

  /** The body and the responses of one API never share a component name, nor do two status codes. */
  lemma ComponentNamesApart(comp: string -> string, api: ApiDoc, s: int, t: int)
    ensures BodyName(comp, api) != ResponseName(comp, api, s)
    ensures ResponseName(comp, api, s) == ResponseName(comp, api, t) ==> s == t
  {
    var c := comp(api.name);
    var suffix, suffix' := if s == 200 then "" else D.Text(s), if t == 200 then "" else D.Text(t);
    assert BodyName(comp, api)[|c| + 2] == 'q' && ResponseName(comp, api, s)[|c| + 2] == 's';
    if ResponseName(comp, api, s) == ResponseName(comp, api, t) {
      assert ResponseName(comp, api, s)[|c + "Response"|..] == suffix;
      assert ResponseName(comp, api, t)[|c + "Response"|..] == suffix';
      assert D.Text(s) != "" && D.Text(t) != "";
      D.TextInjective(if s == 200 then t else s, t);
    }
  }

  // ---- bodies and responses ----

  /** The component validates exactly the records that fit the parameters. */
  ghost predicate ComponentMeans(components: Components, name: string, f: Forest<Payload>) {
    name in components && forall j :: Validates(components[name], j) <==> j.Object? && RecordFits(f, j.fields)
  }

  ghost predicate BodyMeans(api: ApiDoc, op: Operation, components: Components) {
    && (op.body.Some? <==> ParamsAt(api, Body).Tree?)
    && (op.body.Some? ==> ComponentMeans(components, op.body.value, ParamsAt(api, Body)))
  }

  /** There is a response for exactly the API's status codes, each with the values of its own parameters. */
  ghost predicate ResponsesMean(api: ApiDoc, op: Operation, components: Components) {
    && (forall status :: status in op.responses <==> exists i :: 0 <= i < |api.byStatus| && api.byStatus[i].0 == status)
    && forall i | 0 <= i < |api.byStatus| ::
      api.byStatus[i].0 in op.responses
        && ComponentMeans(components, op.responses[api.byStatus[i].0], api.byStatus[i].1)
  }

  lemma WrittenMeans(components: Components, name: string, f: Forest<Payload>)
    requires name in components && components[name] == RootSchema(f)
    ensures ComponentMeans(components, name, f)
  {
    forall j ensures Validates(components[name], j) <==> j.Object? && RecordFits(f, j.fields) {
      RootMeaning(f, j);
    }
  }

  lemma OwnBodyMeans(comp: string -> string, api: ApiDoc, op: Operation, components: Components)
    requires IsOperationOf(comp, api, op) && OwnReferences(comp, api, components)
    ensures BodyMeans(api, op, components)
  {
    if ParamsAt(api, Body).Tree? {
      var w := Write(BodyName(comp, api), ParamsAt(api, Body));
      assert w in BodyWrites(comp, api);
      assert w in WritesOf(comp, api);
      WrittenMeans(components, w.name, w.params);
    }
  }

  lemma OwnResponsesMean(comp: string -> string, api: ApiDoc, op: Operation, components: Components)
    requires IsOperationOf(comp, api, op) && OwnReferences(comp, api, components)
    ensures ResponsesMean(api, op, components)
  {
    forall status
      ensures status in op.responses <==> exists i :: 0 <= i < |api.byStatus| && api.byStatus[i].0 == status
    {
      assert status in op.responses <==> HasStatus(api, |api.byStatus|, status);
    }
    forall i | 0 <= i < |api.byStatus|
      ensures api.byStatus[i].0 in op.responses
      ensures ComponentMeans(components, op.responses[api.byStatus[i].0], api.byStatus[i].1)
    {
      var w := ResponseWrite(comp, api, i);
      assert ResponseWrites(comp, api, |api.byStatus|)[i] == w;
      assert w in WritesOf(comp, api);
      assert HasStatus(api, |api.byStatus|, api.byStatus[i].0);
      WrittenMeans(components, w.name, w.params);
    }
  }

  /**
   * What the document says about an API whose path and method no later API repeats: its name, description and whether
   * it is switched off; under every location its own parameters; and, where registrations under one component name
   * agree, the values of its body and of each of its responses.
   */
  lemma DocumentMeans(comp: string -> string, apis: seq<ApiDoc>, paths: Paths, components: Components, i: nat)
    requires Document(comp, apis, paths, components) && i < |apis|
    requires forall j | i < j < |apis| :: !(apis[j].path == apis[i].path && apis[j].verb == apis[i].verb)
    ensures apis[i].path in paths && apis[i].verb in paths[apis[i].path]
    ensures var api, op := apis[i], paths[apis[i].path][apis[i].verb];
      && op.id == api.name && op.description == api.description && (op.deprecated <==> !api.enabled)
      && ParametersMean(api, op)
      && (AgreeingWrites(AllWrites(comp, apis)) ==>
            BodyMeans(api, op, components) && ResponsesMean(api, op, components))
  {
    OwnOperation(comp, apis, paths, i);
    var api, op := apis[i], paths[apis[i].path][apis[i].verb];
    ParametersAreRoots(comp, api, op);
    if AgreeingWrites(AllWrites(comp, apis)) {
      ReferencesAreOwnIff(comp, apis, components);
      assert OwnReferences(comp, api, components);
      OwnBodyMeans(comp, api, op, components);
      OwnResponsesMean(comp, api, op, components);
    }
  }
}
