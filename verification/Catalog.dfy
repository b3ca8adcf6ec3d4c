/** The whole database as a value, its well-formedness, and copies of one scope of a layer into another layer. */
module Catalog {
  import opened Model
  import opened Tables

  /** The live tables (scope: service) or the draft tables (scope: iteration). */
  datatype Layer = Layer(apis: map<Id, Api>, nextApi: Id, req: Table, resp: Table)

  datatype Db = Db(
    users: map<Id, int>,
    categories: map<Id, Id>,
    services: map<Id, Service>,
    nextService: Id,
    iterations: map<Id, Iteration>,
    nextIteration: Id,
    live: Layer,
    draft: Layer)

  const EMPTY_LAYER := Layer(map[], 1, Table(map[], 1), Table(map[], 1))

  /** A database without services; users and categories are whatever they are. */
  predicate Fresh(db: Db) {
    && db.services == map[] && db.nextService == 1
    && db.iterations == map[] && db.nextIteration == 1
    && db.live == EMPTY_LAYER && db.draft == EMPTY_LAYER
  }

  // ---- well-formedness ----

  /** The unique constraint of the API tables: scope, method and name. */
  predicate Taken(apis: map<Id, Api>, scope: Id, verb: HttpMethod, name: string) {
    exists i :: i in apis && apis[i].scope == scope && apis[i].verb == verb && apis[i].name == name
  }

  predicate UniqueAt(apis: map<Id, Api>, i: Id, j: Id) {
    i in apis && j in apis && apis[i].scope == apis[j].scope && apis[i].verb == apis[j].verb
      && apis[i].name == apis[j].name ==>
      i == j
  }

  ghost predicate UniqueNames(apis: map<Id, Api>) {
    forall i, j {:trigger UniqueAt(apis, i, j)} :: UniqueAt(apis, i, j)
  }

  ghost predicate ApisOk(apis: map<Id, Api>, nextApi: Id, scopes: set<Id>) {
    && 0 < nextApi
    && (forall i | i in apis :: 0 < i < nextApi && apis[i].scope in scopes)
    && UniqueNames(apis)
  }

  ghost predicate LayerOk(l: Layer, scopes: set<Id>) {
    && ApisOk(l.apis, l.nextApi, scopes)
    && TableOk(l.req, l.apis.Keys)
    && TableOk(l.resp, l.apis.Keys)
  }

  predicate UuidAt(services: map<Id, Service>, s: Id, z: Id) {
    s in services && z in services && services[s].uuid == services[z].uuid ==> s == z
  }

  ghost predicate UniqueUuids(services: map<Id, Service>) {
    forall s, z {:trigger UuidAt(services, s, z)} :: UuidAt(services, s, z)
  }

  /** Keys below their counters, service names unique, and every iteration belongs to a service. */
  ghost predicate FrameOk(db: Db) {
    && 0 < db.nextService && 0 < db.nextIteration
    && (forall s | s in db.services :: 0 < s < db.nextService)
    && UniqueUuids(db.services)
    && (forall i | i in db.iterations :: 0 < i < db.nextIteration && db.iterations[i].service in db.services)
  }

  ghost predicate DbOk(db: Db) {
    && FrameOk(db)
    && LayerOk(db.live, db.services.Keys)
    && LayerOk(db.draft, db.iterations.Keys)
  }

  lemma StaysUnique(before: map<Id, Api>, after: map<Id, Api>)
    requires UniqueNames(before)
    requires forall i | i in after ::
      i in before && after[i].scope == before[i].scope && after[i].verb == before[i].verb
        && after[i].name == before[i].name
    ensures UniqueNames(after)
  {
    forall i, j ensures UniqueAt(after, i, j) {
      assert UniqueAt(before, i, j);
    }
  }

  lemma UuidsStayUnique(before: map<Id, Service>, after: map<Id, Service>)
    requires UniqueUuids(before) && forall s | s in after :: s in before && after[s].uuid == before[s].uuid
    ensures UniqueUuids(after)
  {
    forall s, z ensures UuidAt(after, s, z) {
      assert UuidAt(before, s, z);
    }
  }

  // ---- one scope of a layer ----

  function InScope(l: Layer, scope: Id): set<Id> {
    set i | i in l.apis && l.apis[i].scope == scope
  }

  datatype Part = Part(apis: map<Id, Api>, req: map<Id, Row>, resp: map<Id, Row>)

  function RowsOwned(t: Table, owners: set<Id>): map<Id, Row> {
    map i | i in t.rows && t.rows[i].owner in owners :: t.rows[i]
  }

  function ApisOfScope(apis: map<Id, Api>, scope: Id): map<Id, Api> {
    map i | i in apis && apis[i].scope == scope :: apis[i]
  }

  /** The APIs of a scope with their parameter rows. */
  function PartOf(l: Layer, scope: Id): Part {
    Part(ApisOfScope(l.apis, scope),
         RowsOwned(l.req, InScope(l, scope)),
         RowsOwned(l.resp, InScope(l, scope)))
  }

  /** Delete the APIs of a scope; their parameter rows go with them. */
  function ClearScope(l: Layer, scope: Id): Layer {
    Layer(map i | i in l.apis && l.apis[i].scope != scope :: l.apis[i], l.nextApi,
          DropOwners(l.req, InScope(l, scope)), DropOwners(l.resp, InScope(l, scope)))
  }

  lemma ClearedLayer(l: Layer, scopes: set<Id>, scope: Id)
    requires LayerOk(l, scopes)
    ensures LayerOk(ClearScope(l, scope), scopes)
    ensures InScope(ClearScope(l, scope), scope) == {}
  {
    var gone := InScope(l, scope);
    DropKeepsOk(l.req, l.apis.Keys, gone);
    DropKeepsOk(l.resp, l.apis.Keys, gone);
    assert ClearScope(l, scope).apis.Keys == l.apis.Keys - gone;
    StaysUnique(l.apis, ClearScope(l, scope).apis);
  }

  lemma DroppedElsewhere(t: Table, gone: set<Id>, keep: set<Id>)
    requires gone !! keep
    ensures RowsOwned(DropOwners(t, gone), keep) == RowsOwned(t, keep)
  {
  }

  lemma ClearedElsewhere(l: Layer, scopes: set<Id>, scope: Id, other: Id)
    requires LayerOk(l, scopes) && other != scope
    ensures PartOf(ClearScope(l, scope), other) == PartOf(l, other)
  {
    assert InScope(ClearScope(l, scope), other) == InScope(l, other);
    DroppedElsewhere(l.req, InScope(l, scope), InScope(l, other));
    DroppedElsewhere(l.resp, InScope(l, scope), InScope(l, other));
  }

  // ---- copying one scope ----

  datatype Renaming = Renaming(api: map<Id, Id>, req: map<Id, Id>, resp: map<Id, Id>)

  predicate ApiCopiedAt(src: map<Id, Api>, n: Id, after: map<Id, Api>, m: map<Id, Id>, x: Id) {
    x in m && x in src && m[x] in after && after[m[x]] == src[x].(scope := n)
  }

  /** `after` is `before` plus a fresh copy, in scope `n`, of each API renamed by `m`. */
  ghost predicate ApisCopied(src: map<Id, Api>, before: map<Id, Api>, nextBefore: Id, n: Id,
                             after: map<Id, Api>, nextAfter: Id, m: map<Id, Id>) {
    && Injective(m)
    && nextBefore <= nextAfter
    && (forall x | x in m :: nextBefore <= m[x] < nextAfter)
    && after.Keys == before.Keys + m.Values
    && (forall i | i in before :: after[i] == before[i])
    && (forall x {:trigger ApiCopiedAt(src, n, after, m, x)} | x in m :: ApiCopiedAt(src, n, after, m, x))
  }

  /** `after` is `before` plus a copy, in scope `n`, of the APIs `done` of `src` with both parameter forests. */
  ghost predicate SomeCopied(src: Layer, done: set<Id>, before: Layer, n: Id, after: Layer, m: Renaming) {
    && m.api.Keys == done
    && ApisCopied(src.apis, before.apis, before.nextApi, n, after.apis, after.nextApi, m.api)
    && TableCopy(src.req, m.api, before.req, after.req, m.req)
    && TableCopy(src.resp, m.api, before.resp, after.resp, m.resp)
  }

  /** `after` is `before` plus a copy of the whole scope `s` of `src` into scope `n`. */
  ghost predicate LayerCopy(src: Layer, s: Id, before: Layer, n: Id, after: Layer, m: Renaming) {
    SomeCopied(src, InScope(src, s), before, n, after, m)
  }

  lemma ApisCopiedOk(src: map<Id, Api>, nextSrc: Id, srcScopes: set<Id>, s: Id, before: map<Id, Api>, nextBefore: Id,
                     scopes: set<Id>, n: Id, after: map<Id, Api>, nextAfter: Id, m: map<Id, Id>)
    requires ApisOk(src, nextSrc, srcScopes) && ApisOk(before, nextBefore, scopes)
    requires forall i | i in before :: before[i].scope != n
    requires forall x | x in m :: x in src && src[x].scope == s
    requires ApisCopied(src, before, nextBefore, n, after, nextAfter, m)
    ensures ApisOk(after, nextAfter, scopes + {n})
  {
    var inv := InverseExists(m);
    forall i | i in after && i !in before
      ensures i in inv && inv[i] in src && after[i] == src[inv[i]].(scope := n) && src[inv[i]].scope == s
    {
      assert ApiCopiedAt(src, n, after, m, inv[i]);
    }
    forall i, j ensures UniqueAt(after, i, j) {
      if i in after && j in after && i !in before && j !in before {
        assert UniqueAt(src, inv[i], inv[j]);
      } else {
        assert UniqueAt(before, i, j);
      }
    }
  }

  /** Copying a scope into an empty scope keeps the layer well formed; in particular no name clashes. */
  lemma LayerCopyOk(src: Layer, srcScopes: set<Id>, s: Id, before: Layer, scopes: set<Id>, n: Id, after: Layer,
                    m: Renaming)
    requires LayerOk(src, srcScopes) && LayerOk(before, scopes) && InScope(before, n) == {}
    requires LayerCopy(src, s, before, n, after, m)
    ensures LayerOk(after, scopes + {n})
  {
    ApisCopiedOk(src.apis, src.nextApi, srcScopes, s, before.apis, before.nextApi, scopes, n, after.apis,
      after.nextApi, m.api) by {
      forall i | i in before.apis ensures before.apis[i].scope != n {
        assert i !in InScope(before, n);
      }
    }
    CopyKeepsOk(src.req, src.apis.Keys, m.api, before.req, before.apis.Keys, after.req, m.req);
    CopyKeepsOk(src.resp, src.apis.Keys, m.api, before.resp, before.apis.Keys, after.resp, m.resp);
  }

  lemma RowsElsewhere(src: Table, owners: map<Id, Id>, before: Table, beforeOwners: set<Id>, after: Table,
                      m: map<Id, Id>, keep: set<Id>)
    requires TableOk(before, beforeOwners) && TableCopy(src, owners, before, after, m)
    requires keep !! owners.Values
    ensures RowsOwned(after, keep) == RowsOwned(before, keep)
  {
    var inv := InverseExists(m);
    forall i | i in after.rows && i !in before.rows
      ensures after.rows[i].owner in owners.Values
    {
      assert CopiedAt(src, owners, after, m, inv[i]);
    }
  }

  lemma ApisElsewhere(src: map<Id, Api>, before: map<Id, Api>, nextBefore: Id, n: Id, after: map<Id, Api>,
                      nextAfter: Id, m: map<Id, Id>, other: Id)
    requires ApisCopied(src, before, nextBefore, n, after, nextAfter, m) && other != n
    ensures ApisOfScope(after, other) == ApisOfScope(before, other)
  {
    var inv := InverseExists(m);
    forall i | i in after && i !in before
      ensures after[i].scope == n
    {
      assert ApiCopiedAt(src, n, after, m, inv[i]);
    }
  }

  /** Copying into scope `n` leaves every other scope alone. */
  lemma LayerCopyElsewhere(src: Layer, s: Id, before: Layer, scopes: set<Id>, n: Id, after: Layer, m: Renaming,
                           other: Id)
    requires LayerOk(before, scopes) && other != n
    requires LayerCopy(src, s, before, n, after, m)
    ensures PartOf(after, other) == PartOf(before, other)
  {
    var keep := InScope(before, other);
    ApisElsewhere(src.apis, before.apis, before.nextApi, n, after.apis, after.nextApi, m.api, other);
    assert ApisOfScope(before.apis, other).Keys == keep && ApisOfScope(after.apis, other).Keys == InScope(after, other);
    forall v | v in m.api.Values ensures v !in keep {
      var x :| x in m.api && m.api[x] == v;
    }
    RowsElsewhere(src.req, m.api, before.req, before.apis.Keys, after.req, m.req, keep);
    RowsElsewhere(src.resp, m.api, before.resp, before.apis.Keys, after.resp, m.resp, keep);
  }

  // ---- isomorphic parts ----

  /** Equal in every field except the scope and the category. */
  predicate SameApi(a: Api, b: Api) {
    a.(scope := b.scope, category := b.category) == b
  }

  predicate RowIsoAt(a: map<Id, Row>, b: map<Id, Row>, owners: map<Id, Id>, m: map<Id, Id>, x: Id) {
    x in m && x in a && m[x] in b && Copied(a[x], b[m[x]], owners, m)
  }

  /** `m` is a bijection of the rows that keeps payloads and carries owners and parents along. */
  ghost predicate RowsIso(a: map<Id, Row>, b: map<Id, Row>, owners: map<Id, Id>, m: map<Id, Id>) {
    && m.Keys == a.Keys && m.Values == b.Keys && Injective(m)
    && forall x {:trigger RowIsoAt(a, b, owners, m, x)} | x in m :: RowIsoAt(a, b, owners, m, x)
  }

  predicate ApiIsoAt(a: map<Id, Api>, b: map<Id, Api>, m: map<Id, Id>, x: Id) {
    x in m && x in a && m[x] in b && SameApi(a[x], b[m[x]])
  }

  ghost predicate ApisIso(a: map<Id, Api>, b: map<Id, Api>, m: map<Id, Id>) {
    && m.Keys == a.Keys && m.Values == b.Keys && Injective(m)
    && forall x {:trigger ApiIsoAt(a, b, m, x)} | x in m :: ApiIsoAt(a, b, m, x)
  }

  /** The two parts hold the same APIs with the same parameter forests, up to keys, scope and category. */
  ghost predicate Iso(a: Part, b: Part, m: Renaming) {
    && ApisIso(a.apis, b.apis, m.api)
    && RowsIso(a.req, b.req, m.api, m.req)
    && RowsIso(a.resp, b.resp, m.api, m.resp)
  }

  ghost predicate Isomorphic(a: Part, b: Part) {
    exists m :: Iso(a, b, m)
  }

  lemma RowsIsoFlip(a: map<Id, Row>, b: map<Id, Row>, owners: map<Id, Id>, back: map<Id, Id>, m: map<Id, Id>)
    returns (inv: map<Id, Id>)
    requires RowsIso(a, b, owners, m)
    requires forall o | o in owners :: owners[o] in back && back[owners[o]] == o
    ensures RowsIso(b, a, back, inv)
  {
    inv := InverseExists(m);
    forall y | y in inv ensures RowIsoAt(b, a, back, inv, y) {
      assert RowIsoAt(a, b, owners, m, inv[y]);
    }
  }

  lemma ApisIsoFlip(a: map<Id, Api>, b: map<Id, Api>, m: map<Id, Id>) returns (inv: map<Id, Id>)
    requires ApisIso(a, b, m)
    ensures ApisIso(b, a, inv)
    ensures forall o | o in m :: m[o] in inv && inv[m[o]] == o
    ensures forall o | o in inv :: inv[o] in m && m[inv[o]] == o
  {
    inv := InverseExists(m);
    forall y | y in inv ensures ApiIsoAt(b, a, inv, y) {
      assert ApiIsoAt(a, b, m, inv[y]);
    }
  }

  lemma IsoFlip(a: Part, b: Part, m: Renaming) returns (inv: Renaming)
    requires Iso(a, b, m)
    ensures Iso(b, a, inv)
  {
    var api := ApisIsoFlip(a.apis, b.apis, m.api);
    var req := RowsIsoFlip(a.req, b.req, m.api, api, m.req);
    var resp := RowsIsoFlip(a.resp, b.resp, m.api, api, m.resp);
    inv := Renaming(api, req, resp);
  }

  lemma IsomorphicFlips(a: Part, b: Part)
    requires Isomorphic(a, b)
    ensures Isomorphic(b, a)
  {
    var m :| Iso(a, b, m);
    var inv := IsoFlip(a, b, m);
  }

  function Compose(m: map<Id, Id>, k: map<Id, Id>): map<Id, Id> {
    map x | x in m && m[x] in k :: k[m[x]]
  }

  lemma ComposeBijections(m: map<Id, Id>, k: map<Id, Id>)
    requires Injective(m) && Injective(k) && m.Values == k.Keys
    ensures Compose(m, k).Keys == m.Keys && Compose(m, k).Values == k.Values && Injective(Compose(m, k))
  {
    var c := Compose(m, k);
    forall x | x in m ensures x in c {
      assert m[x] in m.Values;
    }
    forall v | v in k.Values ensures v in c.Values {
      var y :| y in k && k[y] == v;
      var x :| x in m && m[x] == y;
      assert c[x] == v;
    }
    forall x, y ensures InjectiveAt(c, x, y) {
      assert InjectiveAt(m, x, y);
      assert x in c && y in c ==> InjectiveAt(k, m[x], m[y]);
    }
  }

  lemma RowsIsoChain(a: map<Id, Row>, b: map<Id, Row>, c: map<Id, Row>, o: map<Id, Id>, p: map<Id, Id>, m: map<Id, Id>,
                     k: map<Id, Id>)
    requires RowsIso(a, b, o, m) && RowsIso(b, c, p, k) && o.Values == p.Keys
    ensures RowsIso(a, c, Compose(o, p), Compose(m, k))
  {
    ComposeBijections(m, k);
    forall x | x in Compose(m, k) ensures RowIsoAt(a, c, Compose(o, p), Compose(m, k), x) {
      assert RowIsoAt(a, b, o, m, x);
      assert RowIsoAt(b, c, p, k, m[x]);
    }
  }

  lemma ChainThrough(a: map<Id, Row>, b: map<Id, Row>, c: map<Id, Row>, o: map<Id, Id>, p: map<Id, Id>, q: map<Id, Id>,
                     m: map<Id, Id>, k: map<Id, Id>) returns (mk: map<Id, Id>)
    requires RowsIso(a, b, o, m) && RowsIso(b, c, p, k) && o.Values == p.Keys && Compose(o, p) == q
    ensures RowsIso(a, c, q, mk)
  {
    mk := Compose(m, k);
    RowsIsoChain(a, b, c, o, p, m, k);
  }

  lemma ApisIsoChain(a: map<Id, Api>, b: map<Id, Api>, c: map<Id, Api>, m: map<Id, Id>, k: map<Id, Id>)
    requires ApisIso(a, b, m) && ApisIso(b, c, k)
    ensures ApisIso(a, c, Compose(m, k))
  {
    ComposeBijections(m, k);
    forall x | x in Compose(m, k) ensures ApiIsoAt(a, c, Compose(m, k), x) {
      assert ApiIsoAt(a, b, m, x) && ApiIsoAt(b, c, k, m[x]);
    }
  }

  lemma IsoChain(a: Part, b: Part, c: Part, m: Renaming, k: Renaming)
    requires Iso(a, b, m) && Iso(b, c, k)
    ensures Isomorphic(a, c)
  {
    ApisIsoChain(a.apis, b.apis, c.apis, m.api, k.api);
    RowsIsoChain(a.req, b.req, c.req, m.api, k.api, m.req, k.req);
    RowsIsoChain(a.resp, b.resp, c.resp, m.api, k.api, m.resp, k.resp);
    assert Iso(a, c, Renaming(Compose(m.api, k.api), Compose(m.req, k.req), Compose(m.resp, k.resp)));
  }

  lemma IsoChainOn(a: Part, b: Part, c: Part, m: Renaming)
    requires Iso(a, b, m) && Isomorphic(b, c)
    ensures Isomorphic(a, c)
  {
    var k :| Iso(b, c, k);
    IsoChain(a, b, c, m, k);
  }

  lemma IsomorphicChains(a: Part, b: Part, c: Part)
    requires Isomorphic(a, b) && Isomorphic(b, c)
    ensures Isomorphic(a, c)
  {
    var m :| Iso(a, b, m);
    IsoChainOn(a, b, c, m);
  }

  lemma TableCopyIso(src: Table, owners: map<Id, Id>, before: Table, beforeOwners: set<Id>, after: Table,
                     m: map<Id, Id>)
    requires TableOk(before, beforeOwners) && TableCopy(src, owners, before, after, m)
    requires owners.Values !! beforeOwners
    ensures RowsIso(RowsOwned(src, owners.Keys), RowsOwned(after, owners.Values), owners, m)
  {
    var a, b := RowsOwned(src, owners.Keys), RowsOwned(after, owners.Values);
    forall x | x in m ensures m[x] in b && RowIsoAt(a, b, owners, m, x) {
      assert CopiedAt(src, owners, after, m, x);
      assert owners[src.rows[x].owner] in owners.Values;
    }
    assert m.Values == b.Keys;
  }

  lemma OwnerCopyIso(src: Table, o: Id, n: Id, before: Table, owners: set<Id>, after: Table, m: map<Id, Id>)
    requires TableOk(before, owners) && n !in owners && TableCopy(src, map[o := n], before, after, m)
    ensures RowsIso(RowsOwned(src, {o}), RowsOwned(after, {n}), map[o := n], m)
  {
    SingletonValues(o, n);
    TableCopyIso(src, map[o := n], before, owners, after, m);
    assert (map[o := n]).Keys == {o};
  }

  lemma OwnerIsoFlip(a: map<Id, Row>, b: map<Id, Row>, o: Id, n: Id, m: map<Id, Id>) returns (inv: map<Id, Id>)
    requires RowsIso(a, b, map[o := n], m)
    ensures RowsIso(b, a, map[n := o], inv)
  {
    inv := RowsIsoFlip(a, b, map[o := n], map[n := o], m);
  }

  lemma OwnerRenamings(n1: Id, o: Id, n2: Id)
    ensures Compose(map[n1 := o], map[o := n2]) == map[n1 := n2]
    ensures (map[n1 := o]).Values == (map[o := n2]).Keys
  {
    SingletonValues(n1, o);
    assert (map[o := n2]).Keys == {o};
    var c := Compose(map[n1 := o], map[o := n2]);
    assert c.Keys == {n1};
    assert c[n1] == n2;
  }

  lemma IsoThroughOriginal(original: map<Id, Row>, a: map<Id, Row>, b: map<Id, Row>, o: Id, n1: Id, n2: Id,
                           m1: map<Id, Id>, m2: map<Id, Id>) returns (k: map<Id, Id>)
    requires RowsIso(original, a, map[o := n1], m1) && RowsIso(original, b, map[o := n2], m2)
    ensures RowsIso(a, b, map[n1 := n2], k)
  {
    var back := OwnerIsoFlip(original, a, o, n1, m1);
    k := ChainThrough(a, original, b, map[n1 := o], map[o := n2], map[n1 := n2], back, m2) by {
      OwnerRenamings(n1, o, n2);
    }
  }

  /** Any two copies of the rows of one owner, however and wherever they were made, are isomorphic to each other. */
  lemma CopiesAgree(src: Table, o: Id, n1: Id, b1: Table, owners1: set<Id>, a1: Table, m1: map<Id, Id>,
                    n2: Id, b2: Table, owners2: set<Id>, a2: Table, m2: map<Id, Id>) returns (k: map<Id, Id>)
    requires TableOk(b1, owners1) && n1 !in owners1 && TableCopy(src, map[o := n1], b1, a1, m1)
    requires TableOk(b2, owners2) && n2 !in owners2 && TableCopy(src, map[o := n2], b2, a2, m2)
    ensures RowsIso(RowsOwned(a1, {n1}), RowsOwned(a2, {n2}), map[n1 := n2], k)
  {
    OwnerCopyIso(src, o, n1, b1, owners1, a1, m1);
    OwnerCopyIso(src, o, n2, b2, owners2, a2, m2);
    k := IsoThroughOriginal(RowsOwned(src, {o}), RowsOwned(a1, {n1}), RowsOwned(a2, {n2}), o, n1, n2, m1, m2);
  }

  /** A copied scope is isomorphic to its source. */
  lemma LayerCopyIso(src: Layer, s: Id, before: Layer, scopes: set<Id>, n: Id, after: Layer, m: Renaming)
    requires LayerOk(before, scopes) && InScope(before, n) == {}
    requires LayerCopy(src, s, before, n, after, m)
    ensures Iso(PartOf(src, s), PartOf(after, n), m)
  {
    assert InScope(after, n) == m.api.Values by {
      forall i | i in after.apis ensures i in InScope(after, n) <==> i in m.api.Values {
        if i in m.api.Values {
          var x :| x in m.api && m.api[x] == i;
          assert ApiCopiedAt(src.apis, n, after.apis, m.api, x);
        } else {
          assert i !in InScope(before, n);
        }
      }
    }
    assert m.api.Values !! before.apis.Keys by {
      forall v | v in m.api.Values ensures v !in before.apis {
        var x :| x in m.api && m.api[x] == v;
      }
    }
    TableCopyIso(src.req, m.api, before.req, before.apis.Keys, after.req, m.req);
    TableCopyIso(src.resp, m.api, before.resp, before.apis.Keys, after.resp, m.resp);
    forall x | x in m.api
      ensures m.api[x] in PartOf(after, n).apis && SameApi(src.apis[x], after.apis[m.api[x]])
    {
      assert ApiCopiedAt(src.apis, n, after.apis, m.api, x);
    }
  }
}
