/** The exported document of a service: built from its APIs with their fetched rows, and the same for a live version as
    for the iteration it was committed from. */
module Exports {
  import opened Model
  import opened Forests
  import opened Tables
  import opened Catalog
  import opened Fetching
  import opened RoundTrips
  import opened FetchCopies
  import opened Sides
  import opened Resaving
  import opened Runs
  import opened OpenApi

  /** An API with its request and response rows in the order in which they were read. */
  datatype Reading = Reading(id: Id, req: seq<Rec>, resp: seq<Rec>)

  ghost predicate Fetched(rows: seq<Rec>, k: Key, g: Forest<Payload>) {
    exists f :: Represents(rows, RootIds(rows, k), f) && g == Payloads(f)
  }

  /** `doc` is what the generator works on: the API's columns, the trees of every location, and those of the status
      codes in the order in which the fetch met them. */
  ghost predicate DocOf(api: Api, reading: Reading, doc: ApiDoc) {
    && doc.name == api.name && doc.path == api.path && doc.verb == api.verb
    && doc.description == api.description && doc.enabled == api.enabled
    && (forall l: Location :: l in doc.byLocation && Fetched(reading.req, At(l), doc.byLocation[l]))
    && |doc.byStatus| == |RootKeys(reading.resp)|
    && (forall i | 0 <= i < |doc.byStatus| ::
          RootKeys(reading.resp)[i] == On(doc.byStatus[i].0)
            && Fetched(reading.resp, On(doc.byStatus[i].0), doc.byStatus[i].1))
  }

  ghost predicate Exported(p: Part, readings: seq<Reading>, docs: seq<ApiDoc>) {
    && |docs| == |readings|
    && forall i | 0 <= i < |readings| :: readings[i].id in p.apis && DocOf(p.apis[readings[i].id], readings[i], docs[i])
  }

  /** The APIs of both parts, and the rows of each, are read in corresponding orders. */
  ghost predicate SameReading(p: Part, q: Part, m: Renaming, a: Reading, b: Reading) {
    && a.id in m.api && b.id == m.api[a.id]
    && SameOrder(p.req, q.req, m.req, a.req, b.req)
    && SameOrder(p.resp, q.resp, m.resp, a.resp, b.resp)
  }

  ghost predicate SameReadings(p: Part, q: Part, m: Renaming, a: seq<Reading>, b: seq<Reading>) {
    |a| == |b| && forall i | 0 <= i < |a| :: SameReading(p, q, m, a[i], b[i])
  }

  // ---- one API ----

  lemma {:induction false} SameRootKeys(a: seq<Rec>, b: seq<Rec>, owners: map<Id, Id>, m: map<Id, Id>, n: nat)
    requires CopyList(a, b, owners, m) && n <= |a|
    ensures RootKeys(a[..n]) == RootKeys(b[..n])
    decreases n
  {
    if n != 0 {
      SameRootKeys(a, b, owners, m, n - 1);
      assert CopyRowAt(a, b, owners, m, n - 1);
      assert a[..n][..n - 1] == a[..n - 1] && b[..n][..n - 1] == b[..n - 1];
      assert HasParent(b[n - 1]) <==> HasParent(a[n - 1]);
    }
  }

  lemma SameGroup(p: map<Id, Row>, q: map<Id, Row>, owners: map<Id, Id>, m: map<Id, Id>, a: seq<Rec>, b: seq<Rec>,
                  k: Key, g: Forest<Payload>, h: Forest<Payload>)
    requires RowsIso(p, q, owners, m) && SameOrder(p, q, m, a, b) && Fetched(a, k, g) && Fetched(b, k, h)
    ensures g == h
  {
    var f :| Represents(a, RootIds(a, k), f) && g == Payloads(f);
    var e :| Represents(b, RootIds(b, k), e) && h == Payloads(e);
    IsoFetchesSame(p, q, owners, m, a, b, k, f, e);
  }

  lemma SameLocations(p: Part, q: Part, m: Renaming, a: Reading, b: Reading, x: ApiDoc, y: ApiDoc)
    requires Iso(p, q, m) && SameReading(p, q, m, a, b)
    requires a.id in p.apis && b.id in q.apis && DocOf(p.apis[a.id], a, x) && DocOf(q.apis[b.id], b, y)
    ensures x.byLocation == y.byLocation
  {
    forall l: Location ensures x.byLocation[l] == y.byLocation[l] {
      SameGroup(p.req, q.req, m.api, m.req, a.req, b.req, At(l), x.byLocation[l], y.byLocation[l]);
    }
  }

  lemma SameStatuses(p: Part, q: Part, m: Renaming, a: Reading, b: Reading, x: ApiDoc, y: ApiDoc)
    requires Iso(p, q, m) && SameReading(p, q, m, a, b)
    requires a.id in p.apis && b.id in q.apis && DocOf(p.apis[a.id], a, x) && DocOf(q.apis[b.id], b, y)
    ensures x.byStatus == y.byStatus
  {
    SameOrderCopies(p.resp, q.resp, m.api, m.resp, a.resp, b.resp);
    SameRootKeys(a.resp, b.resp, m.api, m.resp, |a.resp|);
    assert a.resp[..|a.resp|] == a.resp && b.resp[..|b.resp|] == b.resp;
    forall i | 0 <= i < |x.byStatus| ensures x.byStatus[i] == y.byStatus[i] {
      assert On(x.byStatus[i].0) == On(y.byStatus[i].0);
      SameGroup(p.resp, q.resp, m.api, m.resp, a.resp, b.resp, On(x.byStatus[i].0), x.byStatus[i].1, y.byStatus[i].1);
    }
  }

  lemma SameDoc(p: Part, q: Part, m: Renaming, a: Reading, b: Reading, x: ApiDoc, y: ApiDoc)
    requires Iso(p, q, m) && SameReading(p, q, m, a, b)
    requires a.id in p.apis && b.id in q.apis && DocOf(p.apis[a.id], a, x) && DocOf(q.apis[b.id], b, y)
    ensures x == y
  {
    SameLocations(p, q, m, a, b, x, y);
    SameStatuses(p, q, m, a, b, x, y);
    assert ApiIsoAt(p.apis, q.apis, m.api, a.id);
  }

  /** Isomorphic parts, read in corresponding orders, give the generator the same input. */
  lemma IsoExportsSame(p: Part, q: Part, m: Renaming, a: seq<Reading>, b: seq<Reading>, docs: seq<ApiDoc>,
                       docs': seq<ApiDoc>)
    requires Iso(p, q, m) && SameReadings(p, q, m, a, b) && Exported(p, a, docs) && Exported(q, b, docs')
    ensures docs == docs'
  {
    forall i | 0 <= i < |docs| ensures docs[i] == docs'[i] {
      assert SameReading(p, q, m, a[i], b[i]);
      SameDoc(p, q, m, a[i], b[i], docs[i], docs'[i]);
    }
  }

  // ---- the document ----

  ghost predicate IncludedIn<K, V>(p: map<K, V>, q: map<K, V>) {
    forall k | k in p :: k in q && q[k] == p[k]
  }

  lemma IncludedInBoth<K, V>(p: map<K, V>, q: map<K, V>)
    requires IncludedIn(p, q) && IncludedIn(q, p)
    ensures p == q
  {
    assert p.Keys == q.Keys;
  }

  lemma SameComponentAt(c: Components, d: Components, writes: seq<Write>, name: string)
    requires LastWriterWins(c, writes) && LastWriterWins(d, writes) && name in c
    ensures name in d && c[name] == d[name]
  {
    assert Named(writes, name);
    var i :| 0 <= i < |writes| && writes[i].name == name;
    var last := LastWriteOf(writes, i);
    assert HeldAt(c, writes, last) && HeldAt(d, writes, last);
  }

  lemma ComponentsWithin(c: Components, d: Components, writes: seq<Write>)
    requires LastWriterWins(c, writes) && LastWriterWins(d, writes)
    ensures IncludedIn(c, d)
  {
    forall name | name in c ensures name in d && d[name] == c[name] {
      SameComponentAt(c, d, writes, name);
    }
  }

  lemma SameOperation(comp: string -> string, api: ApiDoc, x: Operation, y: Operation)
    requires IsOperationOf(comp, api, x) && IsOperationOf(comp, api, y)
    ensures x == y
  {
    forall status ensures status in x.responses <==> status in y.responses {
    }
    forall status | status in x.responses ensures x.responses[status] == y.responses[status] {
    }
    assert x.responses.Keys == y.responses.Keys;
    assert x.responses == y.responses;
  }

  lemma SameAt(comp: string -> string, docs: seq<ApiDoc>, path: string, verb: HttpMethod, x: Operation, y: Operation)
    requires LastAt(comp, docs, path, verb, x) && LastAt(comp, docs, path, verb, y)
    ensures x == y
  {
    var i: nat :| LastIndex(docs, i, path, verb) && IsOperationOf(comp, docs[i], x);
    var k: nat :| LastIndex(docs, k, path, verb) && IsOperationOf(comp, docs[k], y);
    assert i == k;
    SameOperation(comp, docs[i], x, y);
  }

  lemma VerbsWithin(comp: string -> string, docs: seq<ApiDoc>, p: Paths, q: Paths, path: string, verb: HttpMethod)
    requires Operations(comp, docs, p) && Operations(comp, docs, q)
    requires path in p && verb in p[path]
    ensures path in q && verb in q[path] && q[path][verb] == p[path][verb]
  {
    assert OperationAt(comp, docs, p, path, verb) && OperationAt(comp, docs, q, path, verb);
    var i: nat :| LastIndex(docs, i, path, verb) && IsOperationOf(comp, docs[i], p[path][verb]);
    assert docs[i] in docs;
    SameAt(comp, docs, path, verb, p[path][verb], q[path][verb]);
  }

  lemma VerbsOfPathWithin(comp: string -> string, docs: seq<ApiDoc>, p: Paths, q: Paths, path: string)
    requires Operations(comp, docs, p) && Operations(comp, docs, q) && path in p
    ensures path in q && IncludedIn(p[path], q[path])
  {
    assert HasPath(docs, path);
    var i :| 0 <= i < |docs| && docs[i].path == path;
    assert docs[i] in docs;
    forall verb | verb in p[path] ensures verb in q[path] && q[path][verb] == p[path][verb] {
      VerbsWithin(comp, docs, p, q, path, verb);
    }
  }

  lemma PathsWithin(comp: string -> string, docs: seq<ApiDoc>, p: Paths, q: Paths)
    requires Operations(comp, docs, p) && Operations(comp, docs, q)
    ensures IncludedIn(p, q)
  {
    forall path | path in p ensures path in q && q[path] == p[path] {
      VerbsOfPathWithin(comp, docs, p, q, path);
      VerbsOfPathWithin(comp, docs, q, p, path);
      IncludedInBoth(p[path], q[path]);
    }
  }

  /** What the generator promises determines the document. */
  lemma DocumentIsDetermined(comp: string -> string, docs: seq<ApiDoc>, p: Paths, c: Components, q: Paths,
                             d: Components)
    requires Document(comp, docs, p, c) && Document(comp, docs, q, d)
    ensures p == q && c == d
  {
    PathsWithin(comp, docs, p, q);
    PathsWithin(comp, docs, q, p);
    IncludedInBoth(p, q);
    ComponentsWithin(c, d, AllWrites(comp, docs));
    ComponentsWithin(d, c, AllWrites(comp, docs));
    IncludedInBoth(c, d);
  }

  // ---- the live version and its iteration ----

  /** A pair of readings of drafts and live APIs in corresponding orders, and the documents exported from them. */
  ghost predicate BothExported(comp: string -> string, p: Part, q: Part, m: Renaming, a: seq<Reading>, b: seq<Reading>,
                               docs: seq<ApiDoc>, docs': seq<ApiDoc>) {
    SameReadings(p, q, m, a, b) && Exported(p, a, docs) && Exported(q, b, docs')
  }

  /**
   * A version exports the same document while it is live and as history: at point `i` of a run the service is live as
   * committed from `it`; at point `n`, then or later, the drafts of `it` export the document that the live version
   * exported. APIs and rows are read in the orders that the returned renaming makes correspond.
   */
  lemma LiveExportsAsHistory(states: seq<Db>, events: seq<Event>, i: nat, n: nat, s: Id, it: Id, comp: string -> string)
    returns (m: Renaming)
    requires Run(states, events) && i <= n < |states| && LastCommit(states, events, i, s) == Some(it)
    ensures Iso(PartOf(states[n].draft, it), PartOf(states[i].live, s), m)
    ensures it in states[n].iterations && s in states[i].services
    ensures states[n].iterations[it].version == Some(states[i].services[s].version)
    ensures forall a, b, docs, docs', p, c, q, d |
              && BothExported(comp, PartOf(states[n].draft, it), PartOf(states[i].live, s), m, a, b, docs, docs')
              && Document(comp, docs, p, c) && Document(comp, docs', q, d) ::
              p == q && c == d
  {
    LiveMatchesLastCommit(states, events, i, s);
    HistoryIsFrozen(states, events, i, n, it);
    var drafts, live := PartOf(states[n].draft, it), PartOf(states[i].live, s);
    m :| Iso(drafts, live, m);
    forall a, b, docs, docs', p, c, q, d |
      BothExported(comp, drafts, live, m, a, b, docs, docs') && Document(comp, docs, p, c)
        && Document(comp, docs', q, d)
      ensures p == q && c == d
    {
      IsoExportsSame(drafts, live, m, a, b, docs, docs');
      DocumentIsDetermined(comp, docs, p, c, q, d);
    }
  }

  // ---- corresponding readings exist ----

  function MapRows(rows: seq<Rec>, m: map<Id, Id>, q: map<Id, Row>): seq<Rec>
    requires forall r | r in rows :: r.id in m && m[r.id] in q
  {
    seq(|rows|, i requires 0 <= i < |rows| => Rec(m[rows[i].id], q[m[rows[i].id]]))
  }

  ghost predicate ReadsRows(rows: seq<Rec>, p: map<Id, Row>) {
    DistinctIds(rows) && forall r | r in rows :: r.id in p && p[r.id] == r.row
  }

  lemma RowsCorrespond(p: map<Id, Row>, q: map<Id, Row>, owners: map<Id, Id>, m: map<Id, Id>, rows: seq<Rec>)
    returns (rows': seq<Rec>)
    requires RowsIso(p, q, owners, m) && ReadsRows(rows, p)
    requires (forall x | x in p :: 0 < x) && (forall y | y in q :: 0 < y)
    ensures SameOrder(p, q, m, rows, rows')
  {
    forall r | r in rows ensures r.id in m && m[r.id] in q {
      assert RowIsoAt(p, q, owners, m, r.id);
    }
    rows' := MapRows(rows, m, q);
    forall i | 0 <= i < |rows|
      ensures rows[i].id in p && p[rows[i].id] == rows[i].row
      ensures rows[i].id in m && rows'[i].id == m[rows[i].id] && rows'[i].id in q && q[rows'[i].id] == rows'[i].row
    {
      assert rows[i] in rows;
    }
  }

  ghost predicate PositiveKeys(p: Part) {
    (forall x | x in p.req :: 0 < x) && (forall x | x in p.resp :: 0 < x)
  }

  /** However the APIs of one part are read, there is a corresponding reading of an isomorphic part. */
  lemma {:induction false} ReadingsCorrespond(p: Part, q: Part, m: Renaming, a: seq<Reading>) returns (b: seq<Reading>)
    requires Iso(p, q, m) && PositiveKeys(p) && PositiveKeys(q)
    requires forall i | 0 <= i < |a| :: a[i].id in p.apis && ReadsRows(a[i].req, p.req) && ReadsRows(a[i].resp, p.resp)
    ensures SameReadings(p, q, m, a, b)
  {
    if a == [] {
      b := [];
    } else {
      var n := |a| - 1;
      var before := ReadingsCorrespond(p, q, m, a[..n]);
      var req := RowsCorrespond(p.req, q.req, m.api, m.req, a[n].req);
      var resp := RowsCorrespond(p.resp, q.resp, m.api, m.resp, a[n].resp);
      var last := Reading(m.api[a[n].id], req, resp);
      b := before + [last];
      assert SameReading(p, q, m, a[n], last);
      forall i | 0 <= i < |a| ensures SameReading(p, q, m, a[i], b[i]) {
        assert i < n ==> a[i] == a[..n][i] && b[i] == before[i];
      }
    }
  }

  lemma GroupIsFetched(t: Table, owners: set<Id>, owner: Id, rows: seq<Rec>, k: Key) returns (g: Forest<Payload>)
    requires TableOk(t, owners) && Lists(rows, t, owner)
    ensures Fetched(rows, k, g)
  {
    var f := GroupExists(t, owners, owner, rows, k);
    g := Payloads(f);
  }

  lemma {:induction false} StatusGroups(t: Table, owners: set<Id>, owner: Id, rows: seq<Rec>, keys: seq<Key>)
    returns (groups: seq<(int, Forest<Payload>)>)
    requires TableOk(t, owners) && Lists(rows, t, owner) && forall k | k in keys :: k.On?
    ensures |groups| == |keys|
    ensures forall i | 0 <= i < |keys| :: keys[i] == On(groups[i].0) && Fetched(rows, keys[i], groups[i].1)
  {
    if keys == [] {
      groups := [];
    } else {
      var g := GroupIsFetched(t, owners, owner, rows, keys[0]);
      var rest := StatusGroups(t, owners, owner, rows, keys[1..]);
      groups := [(keys[0].status, g)] + rest;
      forall i | 0 <= i < |keys| ensures keys[i] == On(groups[i].0) && Fetched(rows, keys[i], groups[i].1) {
        assert i > 0 ==> groups[i] == rest[i - 1] && keys[i] == keys[1..][i - 1];
      }
    }
  }

  /** Every API of a well-formed layer, read in any order, can be exported. */
  lemma DocExists(l: Layer, scopes: set<Id>, reading: Reading) returns (doc: ApiDoc)
    requires LayerOk(l, scopes) && SidedLayer(l) && reading.id in l.apis
    requires Lists(reading.req, l.req, reading.id) && Lists(reading.resp, l.resp, reading.id)
    ensures DocOf(l.apis[reading.id], reading, doc)
  {
    var api, owners := l.apis[reading.id], l.apis.Keys;
    var query := GroupIsFetched(l.req, owners, reading.id, reading.req, At(Query));
    var path := GroupIsFetched(l.req, owners, reading.id, reading.req, At(Path));
    var header := GroupIsFetched(l.req, owners, reading.id, reading.req, At(Header));
    var cookie := GroupIsFetched(l.req, owners, reading.id, reading.req, At(Cookie));
    var body := GroupIsFetched(l.req, owners, reading.id, reading.req, At(Body));
    forall k | k in RootKeys(reading.resp) ensures k.On? {
      RootKeysSided(l.resp, reading.id, reading.resp, Side.Response, k);
    }
    var groups := StatusGroups(l.resp, owners, reading.id, reading.resp, RootKeys(reading.resp));
    var byLocation := map[Query := query, Path := path, Header := header, Cookie := cookie, Body := body];
    forall k: Location ensures k in byLocation && Fetched(reading.req, At(k), byLocation[k]) {
      match k
      case Query => case Path => case Header => case Cookie => case Body =>
    }
    doc := ApiDoc(api.name, api.path, api.verb, api.description, api.enabled, byLocation, groups);
  }
}
