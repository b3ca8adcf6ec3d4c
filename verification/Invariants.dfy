/** What every request keeps: a well-formed database. */
module Invariants {
  import opened Model
  import opened Forests
  import opened Tables
  import opened Codec
  import opened Catalog
  import opened Actions

  lemma FreshIsOk(db: Db)
    requires Fresh(db)
    ensures DbOk(db)
  {
    assert Ranked(map[], map[], 0);
  }

  lemma MoreScopes(l: Layer, scopes: set<Id>, more: set<Id>)
    requires LayerOk(l, scopes) && scopes <= more
    ensures LayerOk(l, more)
  {
  }

  lemma TableMoreOwners(t: Table, owners: set<Id>, more: set<Id>)
    requires TableOk(t, owners) && owners <= more
    ensures TableOk(t, more)
  {
  }

  lemma StartKeepsOk(db: Db, service: Id, user: Id, db': Db, m: Renaming)
    requires DbOk(db) && service in db.services && Started(db, service, user, db', m)
    ensures DbOk(db')
  {
    assert InScope(db.draft, db.nextIteration) == {};
    LayerCopyOk(db.live, db.services.Keys, service, db.draft, db.iterations.Keys, db.nextIteration, db'.draft, m);
    assert db'.iterations.Keys == db.iterations.Keys + {db.nextIteration};
  }

  lemma CommitFrameOk(db: Db, it: Id, version: string, db': Db, m: Renaming)
    requires DbOk(db) && it in db.iterations && Committed(db, it, version, db', m)
    ensures FrameOk(db') && db'.services.Keys == db.services.Keys && db'.iterations.Keys == db.iterations.Keys
  {
    UuidsStayUnique(db.services, db'.services);
  }

  lemma CommitLiveOk(db: Db, it: Id, s: Id, live: Layer, m: Renaming)
    requires DbOk(db) && it in db.iterations && s in db.services
    requires LayerCopy(db.draft, it, ClearScope(db.live, s), s, live, m)
    ensures LayerOk(live, db.services.Keys)
  {
    ClearedLayer(db.live, db.services.Keys, s);
    LayerCopyOk(db.draft, db.iterations.Keys, it, ClearScope(db.live, s), db.services.Keys, s, live, m);
    assert db.services.Keys + {s} == db.services.Keys;
  }

  lemma CommitKeepsOk(db: Db, it: Id, version: string, db': Db, m: Renaming)
    requires DbOk(db) && it in db.iterations && Committed(db, it, version, db', m)
    ensures DbOk(db')
  {
    CommitFrameOk(db, it, version, db', m);
    CommitLiveOk(db, it, db.iterations[it].service, db'.live, m);
  }

  lemma AddedApiOk(apis: map<Id, Api>, n: Id, scopes: set<Id>, row: Api)
    requires ApisOk(apis, n, scopes) && row.scope in scopes && !Taken(apis, row.scope, row.verb, row.name)
    ensures ApisOk(apis[n := row], n + 1, scopes)
  {
    var after := apis[n := row];
    forall i, j ensures UniqueAt(after, i, j) {
      assert UniqueAt(apis, i, j);
    }
  }

  lemma AddKeepsOk(db: Db, it: Id, row: Api)
    requires DbOk(db) && it in db.iterations && row.scope == it && !Taken(db.draft.apis, it, row.verb, row.name)
    ensures DbOk(db.(draft :=
      db.draft.(apis := db.draft.apis[db.draft.nextApi := row], nextApi := db.draft.nextApi + 1)))
  {
    var n := db.draft.nextApi;
    AddedApiOk(db.draft.apis, n, db.iterations.Keys, row);
    TableMoreOwners(db.draft.req, db.draft.apis.Keys, db.draft.apis[n := row].Keys);
    TableMoreOwners(db.draft.resp, db.draft.apis.Keys, db.draft.apis[n := row].Keys);
  }

  lemma DuplicateKeepsOk(db: Db, it: Id, draft: Id, user: Id, suffix: string, db': Db, req: map<Id, Id>,
                         resp: map<Id, Id>)
    requires DbOk(db) && draft in db.draft.apis && db.draft.apis[draft].scope == it
    requires Duplicated(db, draft, user, suffix, db', req, resp)
    requires var c := Duplicate(db.draft.apis[draft], user, suffix); !Taken(db.draft.apis, it, c.verb, c.name)
    ensures DbOk(db')
  {
    var n := db.draft.nextApi;
    var owners := db.draft.apis.Keys;
    AddedApiOk(db.draft.apis, n, db.iterations.Keys, Duplicate(db.draft.apis[draft], user, suffix));
    CopyKeepsOk(db.draft.req, owners, map[draft := n], db.draft.req, owners, db'.draft.req, req);
    CopyKeepsOk(db.draft.resp, owners, map[draft := n], db.draft.resp, owners, db'.draft.resp, resp);
    TableMoreOwners(db'.draft.req, owners + (map[draft := n]).Values, db'.draft.apis.Keys);
    TableMoreOwners(db'.draft.resp, owners + (map[draft := n]).Values, db'.draft.apis.Keys);
  }

  lemma DeleteKeepsOk(db: Db, draft: Id)
    requires DbOk(db)
    ensures DbOk(db.(draft := Layer(db.draft.apis - {draft}, db.draft.nextApi,
                                    DropOwners(db.draft.req, {draft}), DropOwners(db.draft.resp, {draft}))))
  {
    DropKeepsOk(db.draft.req, db.draft.apis.Keys, {draft});
    DropKeepsOk(db.draft.resp, db.draft.apis.Keys, {draft});
    assert (db.draft.apis - {draft}).Keys == db.draft.apis.Keys - {draft};
    StaysUnique(db.draft.apis, db.draft.apis - {draft});
  }

  /** Replacing the rows of a draft by any nested input keeps its table well formed. */
  lemma RewrittenOk(t: Table, owners: set<Id>, draft: Id, params: Forest<Input>, side: Side)
    requires TableOk(t, owners) && draft in owners
    ensures TableOk(Rewritten(t, draft, params, side), owners)
  {
    DropKeepsOk(t, owners, {draft});
    TableMoreOwners(DropOwners(t, {draft}), owners - {draft}, owners);
    NormalIsPruned(params, Missing, side);
    PutKeepsOk(DropOwners(t, {draft}), Normal(params, Missing, side), draft, None, owners);
  }

  lemma RenamedApiOk(apis: map<Id, Api>, n: Id, scopes: set<Id>, i: Id, row: Api)
    requires ApisOk(apis, n, scopes) && i in apis && row.scope == apis[i].scope
    requires !Taken(apis - {i}, row.scope, row.verb, row.name)
    ensures ApisOk(apis[i := row], n, scopes)
  {
    forall j | j in apis && j != i && apis[j].scope == row.scope && apis[j].verb == row.verb
      ensures apis[j].name != row.name
    {
      assert j in apis - {i} && (apis - {i})[j] == apis[j];
    }
    var after := apis[i := row];
    forall j, k ensures UniqueAt(after, j, k) {
      assert UniqueAt(apis, j, k);
    }
  }

  lemma UpdateKeepsOk(db: Db, draft: Id, row: Api, req: Forest<Input>, resp: Forest<Input>)
    requires DbOk(db) && draft in db.draft.apis && row.scope == db.draft.apis[draft].scope
    requires !Taken(db.draft.apis - {draft}, row.scope, row.verb, row.name)
    ensures DbOk(db.(draft := Layer(db.draft.apis[draft := row], db.draft.nextApi,
                                    Rewritten(db.draft.req, draft, req, Request),
                                    Rewritten(db.draft.resp, draft, resp, Response))))
  {
    var owners := db.draft.apis.Keys;
    RenamedApiOk(db.draft.apis, db.draft.nextApi, db.iterations.Keys, draft, row);
    RewrittenOk(db.draft.req, owners, draft, req, Request);
    RewrittenOk(db.draft.resp, owners, draft, resp, Response);
    assert db.draft.apis[draft := row].Keys == owners;
  }

  lemma RecategorizedOk(apis: map<Id, Api>, n: Id, scopes: set<Id>, i: Id, category: Option<Id>)
    requires ApisOk(apis, n, scopes) && i in apis
    ensures ApisOk(apis[i := apis[i].(category := category)], n, scopes)
  {
    StaysUnique(apis, apis[i := apis[i].(category := category)]);
  }

  lemma CategoryKeepsOk(db: Db, api: Id, category: Option<Id>)
    requires DbOk(db) && api in db.live.apis
    ensures DbOk(db.(live := Recategorized(db.live, api, category)))
  {
    assert Recategorized(db.live, api, category).apis.Keys == db.live.apis.Keys;
    RecategorizedOk(db.live.apis, db.live.nextApi, db.services.Keys, api, category);
  }

  lemma CreateKeepsOk(db: Db, uuid: string, owner: Id, text: Option<string>)
    requires DbOk(db)
    ensures DbOk(CreateService(db, uuid, owner, text).db)
  {
    var services := CreateService(db, uuid, owner, text).db.services;
    MoreScopes(db.live, db.services.Keys, services.Keys);
    forall s, z ensures UuidAt(services, s, z) {
      assert UuidAt(db.services, s, z);
    }
  }

  lemma StartingOk(db: Db, service: Id, user: Id, r: Response, db': Db)
    requires DbOk(db) && StartIteration(db, service, user, r, db')
    ensures DbOk(db')
  {
    if db' != db {
      var m :| Started(db, service, user, db', m);
      StartKeepsOk(db, service, user, db', m);
    }
  }

  lemma CommittingOk(db: Db, it: Id, version: string, user: Id, r: Response, db': Db)
    requires DbOk(db) && CommitIteration(db, it, version, user, r, db')
    ensures DbOk(db')
  {
    if db' != db {
      var m :| Committed(db, it, version, db', m);
      CommitKeepsOk(db, it, version, db', m);
    }
  }

  lemma CopyingOk(db: Db, it: Id, draft: Id, user: Id, suffix: string, r: Response, db': Db)
    requires DbOk(db) && CopyApi(db, it, draft, user, suffix, r, db')
    ensures DbOk(db')
  {
    if db' != db {
      var req, resp :| Duplicated(db, draft, user, suffix, db', req, resp);
      DuplicateKeepsOk(db, it, draft, user, suffix, db', req, resp);
    }
  }

  lemma AddingOk(db: Db, a: Action, r: Response, db': Db)
    requires DbOk(db) && Step(db, a, r, db') && a.Adding?
    ensures DbOk(db')
  {
    if db' != db {
      AddKeepsOk(db, a.it, db'.draft.apis[db.draft.nextApi]);
    }
  }

  lemma DeletingOk(db: Db, a: Action, r: Response, db': Db)
    requires DbOk(db) && Step(db, a, r, db') && a.Deleting?
    ensures DbOk(db')
  {
    if db' != db {
      DeleteKeepsOk(db, a.draft);
    }
  }

  lemma UpdatingOk(db: Db, a: Action, r: Response, db': Db)
    requires DbOk(db) && Step(db, a, r, db') && a.Updating?
    ensures DbOk(db')
  {
    if db' != db {
      UpdateKeepsOk(db, a.draft, db'.draft.apis[a.draft], a.req, a.resp);
    }
  }

  lemma DescribingOk(db: Db, it: Id, text: Option<string>, user: Id)
    requires DbOk(db)
    ensures DbOk(SetDescription(db, it, text, user).db)
  {
    var db' := SetDescription(db, it, text, user).db;
    assert db'.iterations.Keys == db.iterations.Keys;
    assert FrameOk(db');
  }

  lemma ElsewhereOk(db: Db, db': Db)
    requires DbOk(db) && Elsewhere(db, db')
    ensures DbOk(db')
  {
    UuidsStayUnique(db.services, db'.services);
    assert FrameOk(db');
  }

  lemma CategorizingOk(db: Db, a: Action, r: Response, db': Db)
    requires DbOk(db) && Step(db, a, r, db') && a.Categorizing?
    ensures DbOk(db')
  {
    if db' != db {
      CategoryKeepsOk(db, a.api, if a.newCategory == -1 then None else Some(a.newCategory));
    }
  }

  /** Every request keeps the database well formed, whatever its arguments and its outcome. */
  lemma StepKeepsOk(db: Db, a: Action, r: Response, db': Db)
    requires DbOk(db) && Step(db, a, r, db')
    ensures DbOk(db')
  {
    match a
    case CreatingService(uuid, owner, text) => CreateKeepsOk(db, uuid, owner, text);
    case Starting(service, user) => StartingOk(db, service, user, r, db');
    case Committing(it, version, user) => CommittingOk(db, it, version, user, r, db');
    case Copying(it, draft, user, suffix) => CopyingOk(db, it, draft, user, suffix, r, db');
    case Categorizing(_, _, _) => CategorizingOk(db, a, r, db');
    case Adding(_, _, _, _, _, _, _, _) => AddingOk(db, a, r, db');
    case Deleting(_, _, _) => DeletingOk(db, a, r, db');
    case Updating(_, _, _, _, _, _, _, _, _, _) => UpdatingOk(db, a, r, db');
    case Describing(it, text, user) => DescribingOk(db, it, text, user);
    case Other => ElsewhereOk(db, db');
  }
}
