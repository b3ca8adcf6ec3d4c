/** One layer of the database as objects: an API table and its two parameter tables, changed and copied in place. */
module Layers {
  import opened Model
  import opened Forests
  import opened Tables
  import opened Codec
  import opened ParamTables
  import opened Catalog
  import opened Actions
  import opened Descent

  lemma CopiedNameIsFree(src: map<Id, Api>, nextSrc: Id, scopes: set<Id>, before: map<Id, Api>, nextBefore: Id, n: Id,
                         apis: map<Id, Api>, nextApi: Id, m: map<Id, Id>, x: Id)
    requires ApisOk(src, nextSrc, scopes) && ApisCopied(src, before, nextBefore, n, apis, nextApi, m)
    requires x in src && x !in m && forall y | y in m :: y in src && src[y].scope == src[x].scope
    requires forall i | i in before :: before[i].scope != n
    ensures !Taken(apis, n, src[x].verb, src[x].name)
  {
    var inv := InverseExists(m);
    forall i | i in apis && apis[i].scope == n
      ensures i in inv && inv[i] in src && apis[i] == src[inv[i]].(scope := n)
      ensures !(apis[i].verb == src[x].verb && apis[i].name == src[x].name)
    {
      assert ApiCopiedAt(src, n, apis, m, inv[i]);
      assert UniqueAt(src, inv[i], x);
    }
  }

  lemma ApisCopiedExtends(src: map<Id, Api>, before: map<Id, Api>, nextBefore: Id, n: Id,
                          apis: map<Id, Api>, nextApi: Id, m: map<Id, Id>, x: Id)
    requires ApisCopied(src, before, nextBefore, n, apis, nextApi, m) && x in src && x !in m
    requires forall i | i in apis :: i < nextApi
    ensures ApisCopied(src, before, nextBefore, n, apis[nextApi := src[x].(scope := n)], nextApi + 1, m[x := nextApi])
  {
    Descent.RenamingGrows(x, nextApi, m);
    var apis', m' := apis[nextApi := src[x].(scope := n)], m[x := nextApi];
    forall y | y in m'
      ensures ApiCopiedAt(src, n, apis', m', y)
    {
      if y != x {
        assert ApiCopiedAt(src, n, apis, m, y);
      }
    }
  }

  lemma OneMoreOwner(src: Table, owners: map<Id, Id>, x: Id, n: Id, t0: Table, t1: Table, t2: Table, m1: map<Id, Id>,
                     m2: map<Id, Id>)
    requires TableCopy(src, owners, t0, t1, m1) && TableCopy(src, map[x := n], t1, t2, m2) && x !in owners
    ensures TableCopy(src, owners[x := n], t0, t2, m1 + m2)
  {
    TableCopyExtends(src, owners, map[x := n], t0, t1, t2, m1, m2);
    assert owners + map[x := n] == owners[x := n];
  }

  /** `after` is `now` plus a copy of API `x` in scope `n` and of its rows. */
  ghost predicate OneCopied(src: Layer, x: Id, now: Layer, n: Id, after: Layer, req: map<Id, Id>, resp: map<Id, Id>) {
    && x in src.apis
    && after.apis == now.apis[now.nextApi := src.apis[x].(scope := n)] && after.nextApi == now.nextApi + 1
    && TableCopy(src.req, map[x := now.nextApi], now.req, after.req, req)
    && TableCopy(src.resp, map[x := now.nextApi], now.resp, after.resp, resp)
  }

  lemma NoneCopied(src: Layer, before: Layer, n: Id)
    ensures SomeCopied(src, {}, before, n, before, Renaming(map[], map[], map[]))
  {
  }

  /** One more API copied, with its rows in both tables. */
  lemma SomeCopiedExtends(src: Layer, done: set<Id>, before: Layer, n: Id, now: Layer, after: Layer, m: Renaming, x: Id,
                          req: map<Id, Id>, resp: map<Id, Id>)
    requires SomeCopied(src, done, before, n, now, m) && x !in done
    requires forall i | i in now.apis :: i < now.nextApi
    requires OneCopied(src, x, now, n, after, req, resp)
    ensures SomeCopied(src, done + {x}, before, n, after, Renaming(m.api[x := now.nextApi], m.req + req, m.resp + resp))
  {
    ApisCopiedExtends(src.apis, before.apis, before.nextApi, n, now.apis, now.nextApi, m.api, x);
    OneMoreOwner(src.req, m.api, x, now.nextApi, before.req, now.req, after.req, m.req, req);
    OneMoreOwner(src.resp, m.api, x, now.nextApi, before.resp, now.resp, after.resp, m.resp, resp);
  }

  /** On well-formed tables the next turn of the copy cannot fail. */
  lemma TurnSucceeds(src: Layer, srcScopes: set<Id>, scope: Id, done: set<Id>, before: Layer, n: Id, now: Layer,
                     m: Renaming, x: Id)
    requires LayerOk(src, srcScopes) && SomeCopied(src, done, before, n, now, m)
    requires x in InScope(src, scope) && x !in done && done <= InScope(src, scope)
    requires InScope(before, n) == {}
    ensures !Taken(now.apis, n, src.apis[x].verb, src.apis[x].name)
    ensures ParentsInside(src.req, x) && ParentsInside(src.resp, x)
  {
    forall i | i in before.apis ensures before.apis[i].scope != n {
      assert i !in InScope(before, n);
    }
    forall y | y in m.api ensures y in InScope(src, scope) {
    }
    CopiedNameIsFree(src.apis, src.nextApi, srcScopes, before.apis, before.nextApi, n, now.apis, now.nextApi, m.api, x);
    OkMeansParentsInside(src.req, src.apis.Keys, x);
    OkMeansParentsInside(src.resp, src.apis.Keys, x);
  }

  class LayerStore {
    var apis: map<Id, Api>
    var nextApi: Id
    const req: ParamTable
    const resp: ParamTable

    ghost function Value(): Layer
      reads this, req, resp
    {
      Layer(apis, nextApi, req.Value(), resp.Value())
    }

    ghost predicate Valid()
      reads this, req, resp
    {
      && req != resp && req.Valid() && resp.Valid()
      && 0 < nextApi && forall i | i in apis :: 0 < i < nextApi
    }

    /** No object is shared with the other layer. */
    predicate ApartFrom(other: LayerStore) {
      this != other && req != other.req && req != other.resp && resp != other.req && resp != other.resp
    }

    constructor ()
      ensures Valid() && Value() == EMPTY_LAYER && fresh(req) && fresh(resp)
    {
      apis, nextApi := map[], 1;
      req := new ParamTable();
      resp := new ParamTable();
    }

    /** Add an API and flush; the unique constraint on scope, method and name may reject it. */
    method InsertApi(row: Api) returns (ok: bool, id: Id)
      requires Valid()
      modifies this
      ensures Valid() && id == old(nextApi)
      ensures ok <==> !Taken(old(apis), row.scope, row.verb, row.name)
      ensures ok ==> apis == old(apis)[id := row] && nextApi == id + 1
      ensures !ok ==> apis == old(apis) && nextApi == old(nextApi)
    {
      id := nextApi;
      ok := !Taken(apis, row.scope, row.verb, row.name);
      if ok {
        apis := apis[id := row];
        nextApi := nextApi + 1;
      }
    }

    /** Bulk delete of a scope; the parameters go by cascade. */
    method DeleteScope(scope: Id)
      requires Valid()
      modifies this, req, resp
      ensures Valid() && Value() == ClearScope(old(Value()), scope)
    {
      var gone := set i | i in apis && apis[i].scope == scope;
      apis := map i | i in apis && apis[i].scope != scope :: apis[i];
      req.DeleteOwned(gone);
      resp.DeleteOwned(gone);
      assert gone == InScope(old(Value()), scope);
    }

    /** One turn of the copy: the API, then its request rows, then its response rows; false when any of them raises. */
    method CopyApi(src: LayerStore, x: Id, newScope: Id)
      returns (ok: bool, ghost req': map<Id, Id>, ghost resp': map<Id, Id>)
      requires Valid() && src.Valid() && ApartFrom(src)
      requires x in src.apis
      modifies this, req, resp
      ensures Valid()
      ensures ok <==>
        && !Taken(old(apis), newScope, src.apis[x].verb, src.apis[x].name)
        && ParentsInside(src.req.Value(), x) && ParentsInside(src.resp.Value(), x)
      ensures ok ==> OneCopied(src.Value(), x, old(Value()), newScope, Value(), req', resp')
    {
      req', resp' := map[], map[];
      var id, rows, reqMap, respMap;
      ok, id := InsertApi(src.apis[x].(scope := newScope));
      if ok {
        rows := src.req.ReadRows(x);
        ok, reqMap := req.CopyFrom(src.req, x, id, rows);
        req' := reqMap;
        if ok {
          rows := src.resp.ReadRows(x);
          ok, respMap := resp.CopyFrom(src.resp, x, id, rows);
          resp' := respMap;
        }
      }
    }

    /** Copy every API of `scope` with both parameter forests, in any order. No insert is rejected, no parent is
        missing. */
    method CopyScope(src: LayerStore, scope: Id, newScope: Id, ghost srcScopes: set<Id>, ghost scopes: set<Id>)
      returns (ok: bool, ghost m: Renaming)
      requires Valid() && src.Valid() && ApartFrom(src)
      requires LayerOk(src.Value(), srcScopes) && LayerOk(Value(), scopes) && InScope(Value(), newScope) == {}
      modifies this, req, resp
      ensures Valid() && ok
      ensures LayerCopy(src.Value(), scope, old(Value()), newScope, Value(), m)
    {
      ghost var from, before := src.Value(), Value();
      var all := set i | i in src.apis && src.apis[i].scope == scope;
      assert all == InScope(from, scope);
      var todo := all;
      ok := true;
      m := Renaming(map[], map[], map[]);
      NoneCopied(from, before, newScope);
      assert all - todo == {};
      while todo != {}
        invariant Valid() && src.Value() == from && ok && todo <= all
        invariant SomeCopied(from, all - todo, before, newScope, Value(), m)
        decreases todo
      {
        var x :| x in todo;
        ghost var now := Value();
        TurnSucceeds(from, srcScopes, scope, all - todo, before, newScope, now, m, x);
        ghost var reqMap, respMap;
        ok, reqMap, respMap := CopyApi(src, x, newScope);
        SomeCopiedExtends(from, all - todo, before, newScope, now, Value(), m, x, reqMap, respMap);
        m := Renaming(m.api[x := now.nextApi], m.req + reqMap, m.resp + respMap);
        OneLess(all, todo, x);
        todo := todo - {x};
      }
      assert all - todo == all;
    }

    /** Replace everything in scope `n` by a copy of `scope` of the other layer. */
    method ReplaceScope(src: LayerStore, scope: Id, n: Id, ghost from: Layer, ghost srcScopes: set<Id>,
                        ghost before: Layer, ghost scopes: set<Id>)
      returns (ghost m: Renaming)
      requires Valid() && src.Valid() && ApartFrom(src)
      requires from == src.Value() && LayerOk(from, srcScopes)
      requires before == Value() && LayerOk(before, scopes)
      modifies this, req, resp
      ensures Valid()
      ensures LayerCopy(from, scope, ClearScope(before, n), n, Value(), m)
    {
      ClearedLayer(before, scopes, n);
      DeleteScope(n);
      var ok;
      ok, m := CopyScope(src, scope, n, srcScopes, scopes);
    }

    /** Add a copy of one API of this layer, with the rows of both tables copied recursively. */
    method DuplicateApi(x: Id, copy: Api, ghost scopes: set<Id>)
      returns (ok: bool, ghost req': map<Id, Id>, ghost resp': map<Id, Id>)
      requires Valid() && LayerOk(Value(), scopes) && x in apis
      modifies this, req, resp
      ensures Valid()
      ensures ok <==> !Taken(old(apis), copy.scope, copy.verb, copy.name)
      ensures !ok ==> Value() == old(Value())
      ensures ok ==>
        && apis == old(apis)[old(nextApi) := copy] && nextApi == old(nextApi) + 1
        && TableCopy(old(req.Value()), map[x := old(nextApi)], old(req.Value()), req.Value(), req')
        && TableCopy(old(resp.Value()), map[x := old(nextApi)], old(resp.Value()), resp.Value(), resp')
    {
      req', resp' := map[], map[];
      ghost var owners := apis.Keys;
      var id;
      ok, id := InsertApi(copy);
      if ok {
        req' := req.CopyWithin(x, id, owners);
        resp' := resp.CopyWithin(x, id, owners);
      }
    }

    method DeleteApi(x: Id)
      requires Valid()
      modifies this, req, resp
      ensures Valid()
      ensures Value()
        == Layer(old(apis) - {x}, old(nextApi), DropOwners(old(req.Value()), {x}), DropOwners(old(resp.Value()), {x}))
    {
      req.DeleteOwned({x});
      resp.DeleteOwned({x});
      apis := apis - {x};
    }

    /** Overwrite an API and replace its parameters by nested input. */
    method RewriteApi(x: Id, row: Api, reqParams: Forest<Input>, respParams: Forest<Input>)
      requires Valid() && x in apis
      modifies this, req, resp
      ensures Valid()
      ensures Value() == Layer(old(apis)[x := row], old(nextApi),
                               Rewritten(old(req.Value()), x, reqParams, Request),
                               Rewritten(old(resp.Value()), x, respParams, Response))
    {
      apis := apis[x := row];
      req.DeleteOwned({x});
      resp.DeleteOwned({x});
      if reqParams.Tree? {
        req.ProcessParams(reqParams, x, None, Missing, Request);
      }
      if respParams.Tree? {
        resp.ProcessParams(respParams, x, None, Missing, Response);
      }
    }
  }
}
