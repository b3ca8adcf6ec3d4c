/** What one request leaves alone: other iterations' drafts, committed iterations, and the live APIs of other
    services. */
module Frames {
  import opened Model
  import opened Forests
  import opened Tables
  import opened Codec
  import opened Catalog
  import opened Actions
  import opened Invariants

  /** The iteration a request works on. */
  function Target(a: Action): Option<Id> {
    match a
    case Committing(it, _, _) => Some(it)
    case Describing(it, _, _) => Some(it)
    case Adding(it, _, _, _, _, _, _, _) => Some(it)
    case Copying(it, _, _, _) => Some(it)
    case Deleting(it, _, _) => Some(it)
    case Updating(it, _, _, _, _, _, _, _, _, _) => Some(it)
    case _ => None
  }

  /** The request replaced the live APIs of service `s` by the drafts of `it`. */
  predicate Publishes(db: Db, a: Action, r: Response, s: Id, it: Id) {
    && a.Committing? && r.Done? && a.it == it
    && it in db.iterations && db.iterations[it].service == s
  }

  /** The request replaced no live API of service `s`. */
  predicate KeepsLive(db: Db, a: Action, r: Response, s: Id) {
    a.Committing? ==> !Publishes(db, a, r, s, a.it)
  }

  // ---- drafts ----

  lemma StartFrame(db: Db, service: Id, user: Id, r: Response, db': Db, it: Id)
    requires DbOk(db) && StartIteration(db, service, user, r, db') && it in db.iterations
    ensures it in db'.iterations && db'.iterations[it] == db.iterations[it]
    ensures PartOf(db'.draft, it) == PartOf(db.draft, it)
  {
    if db' != db {
      var m :| Started(db, service, user, db', m);
      LayerCopyElsewhere(db.live, service, db.draft, db.iterations.Keys, db.nextIteration, db'.draft, m, it);
    }
  }

  lemma AddScope(l: Layer, scopes: set<Id>, row: Api, other: Id)
    requires LayerOk(l, scopes) && row.scope != other
    ensures ApisOfScope(l.apis[l.nextApi := row], other) == ApisOfScope(l.apis, other)
    ensures l.nextApi !in InScope(l, other)
  {
  }

  lemma AddFrame(l: Layer, scopes: set<Id>, row: Api, other: Id)
    requires LayerOk(l, scopes) && row.scope != other
    ensures PartOf(l.(apis := l.apis[l.nextApi := row], nextApi := l.nextApi + 1), other) == PartOf(l, other)
  {
    assert InScope(l.(apis := l.apis[l.nextApi := row], nextApi := l.nextApi + 1), other) == InScope(l, other);
  }

  lemma DuplicateFrame(db: Db, draft: Id, user: Id, suffix: string, db': Db, req: map<Id, Id>, resp: map<Id, Id>,
                       other: Id)
    requires DbOk(db) && draft in db.draft.apis && db.draft.apis[draft].scope != other
    requires Duplicated(db, draft, user, suffix, db', req, resp)
    ensures PartOf(db'.draft, other) == PartOf(db.draft, other)
  {
    var n := db.draft.nextApi;
    var keep := InScope(db.draft, other);
    AddScope(db.draft, db.iterations.Keys, Duplicate(db.draft.apis[draft], user, suffix), other);
    assert InScope(db'.draft, other) == keep;
    SingletonValues(draft, n);
    RowsElsewhere(db.draft.req, map[draft := n], db.draft.req, db.draft.apis.Keys, db'.draft.req, req, keep);
    RowsElsewhere(db.draft.resp, map[draft := n], db.draft.resp, db.draft.apis.Keys, db'.draft.resp, resp, keep);
  }

  lemma CopyFrame(db: Db, a: Action, r: Response, db': Db, it: Id)
    requires DbOk(db) && Step(db, a, r, db') && a.Copying? && a.it != it
    ensures PartOf(db'.draft, it) == PartOf(db.draft, it) && db'.iterations == db.iterations
  {
    if db' != db {
      var req, resp :| Duplicated(db, a.draft, a.user, a.suffix, db', req, resp);
      DuplicateFrame(db, a.draft, a.user, a.suffix, db', req, resp, it);
    }
  }

  lemma DeleteFrame(l: Layer, draft: Id, other: Id)
    requires draft in l.apis && l.apis[draft].scope != other
    ensures PartOf(Layer(l.apis - {draft}, l.nextApi, DropOwners(l.req, {draft}), DropOwners(l.resp, {draft})), other)
         == PartOf(l, other)
  {
    var l' := Layer(l.apis - {draft}, l.nextApi, DropOwners(l.req, {draft}), DropOwners(l.resp, {draft}));
    assert InScope(l', other) == InScope(l, other);
    DroppedElsewhere(l.req, {draft}, InScope(l, other));
    DroppedElsewhere(l.resp, {draft}, InScope(l, other));
  }

  lemma RewriteFrame(t: Table, owners: set<Id>, draft: Id, params: Forest<Input>, side: Side, keep: set<Id>)
    requires TableOk(t, owners) && draft in owners && draft !in keep
    ensures RowsOwned(Rewritten(t, draft, params, side), keep) == RowsOwned(t, keep)
  {
    var dropped := DropOwners(t, {draft});
    DropKeepsOk(t, owners, {draft});
    TableMoreOwners(dropped, owners - {draft}, owners);
    NormalIsPruned(params, Missing, side);
    PutKeepsOk(dropped, Normal(params, Missing, side), draft, None, owners);
    DroppedElsewhere(t, {draft}, keep);
  }

  lemma UpdateFrame(l: Layer, scopes: set<Id>, draft: Id, row: Api, req: Forest<Input>, resp: Forest<Input>, other: Id)
    requires LayerOk(l, scopes) && draft in l.apis && l.apis[draft].scope != other && row.scope != other
    ensures PartOf(Layer(l.apis[draft := row], l.nextApi, Rewritten(l.req, draft, req, Request),
      Rewritten(l.resp, draft, resp, Response)), other)
         == PartOf(l, other)
  {
    var l' := Layer(l.apis[draft := row], l.nextApi, Rewritten(l.req, draft, req, Request),
      Rewritten(l.resp, draft, resp, Response));
    assert InScope(l', other) == InScope(l, other);
    RewriteFrame(l.req, l.apis.Keys, draft, req, Request, InScope(l, other));
    RewriteFrame(l.resp, l.apis.Keys, draft, resp, Response, InScope(l, other));
  }

  lemma AddingFrame(db: Db, a: Action, r: Response, db': Db, it: Id)
    requires DbOk(db) && a.Adding? && Step(db, a, r, db') && a.it != it
    ensures PartOf(db'.draft, it) == PartOf(db.draft, it) && db'.iterations == db.iterations
  {
    if db' != db {
      AddFrame(db.draft, db.iterations.Keys, db'.draft.apis[db.draft.nextApi], it);
    }
  }

  lemma DeletingFrame(db: Db, a: Action, r: Response, db': Db, it: Id)
    requires a.Deleting? && Step(db, a, r, db') && a.it != it
    ensures PartOf(db'.draft, it) == PartOf(db.draft, it) && db'.iterations == db.iterations
  {
    if db' != db {
      DeleteFrame(db.draft, a.draft, it);
    }
  }

  lemma UpdatingFrame(db: Db, a: Action, r: Response, db': Db, it: Id)
    requires DbOk(db) && a.Updating? && Step(db, a, r, db') && a.it != it
    ensures PartOf(db'.draft, it) == PartOf(db.draft, it) && db'.iterations == db.iterations
  {
    if db' != db {
      UpdateFrame(db.draft, db.iterations.Keys, a.draft, db'.draft.apis[a.draft], a.req, a.resp, it);
    }
  }

  lemma CommitFrame(db: Db, a: Action, r: Response, db': Db, it: Id)
    requires a.Committing? && Step(db, a, r, db') && a.it != it && it in db.iterations
    ensures it in db'.iterations && db'.iterations[it] == db.iterations[it] && db'.draft == db.draft
  {
    if db' != db {
      var m :| Committed(db, a.it, a.version, db', m);
    }
  }

  /** A request that works on another iteration, or on none, leaves an iteration and its drafts exactly as they were. */
  lemma OthersLeaveDrafts(db: Db, a: Action, r: Response, db': Db, it: Id)
    requires DbOk(db) && Step(db, a, r, db') && it in db.iterations && Target(a) != Some(it)
    ensures it in db'.iterations && db'.iterations[it] == db.iterations[it]
    ensures PartOf(db'.draft, it) == PartOf(db.draft, it)
  {
    match a
    case Starting(service, user) => StartFrame(db, service, user, r, db', it);
    case Committing(_, _, _) => CommitFrame(db, a, r, db', it);
    case Copying(_, _, _, _) => CopyFrame(db, a, r, db', it);
    case Adding(_, _, _, _, _, _, _, _) => AddingFrame(db, a, r, db', it);
    case Deleting(_, _, _) => DeletingFrame(db, a, r, db', it);
    case Updating(_, _, _, _, _, _, _, _, _, _) => UpdatingFrame(db, a, r, db', it);
    case _ =>
  }

  /** No request at all changes a committed iteration or its drafts; a request aimed at one changes nothing anywhere. */
  lemma CommittedIsFrozen(db: Db, a: Action, r: Response, db': Db, it: Id)
    requires DbOk(db) && Step(db, a, r, db') && it in db.iterations && db.iterations[it].committed
    ensures it in db'.iterations && db'.iterations[it] == db.iterations[it]
    ensures PartOf(db'.draft, it) == PartOf(db.draft, it)
    ensures Target(a) == Some(it) ==> db' == db
  {
    if Target(a) == Some(it) {
      assert Guard(db, it, a.user) == Denied(-10);
    } else {
      OthersLeaveDrafts(db, a, r, db', it);
    }
  }

  // ---- live APIs ----

  lemma RowsSelf(t: Table, owners: set<Id>, keep: set<Id>, o: map<Id, Id>) returns (m: map<Id, Id>)
    requires TableOk(t, owners) && o.Keys == keep && forall x | x in o :: o[x] == x
    ensures RowsIso(RowsOwned(t, keep), RowsOwned(t, keep), o, m)
  {
    var a := RowsOwned(t, keep);
    m := map x | x in a :: x;
    forall x | x in a ensures RowIsoAt(a, a, o, m, x) && x in m.Values {
      assert ParentOkAt(t.rows, x);
      assert m[x] == x;
    }
  }

  /** Changing nothing but one category gives an isomorphic part; so does changing nothing. */
  lemma RecategorizedIso(l: Layer, scopes: set<Id>, apis: map<Id, Api>, scope: Id)
    requires LayerOk(l, scopes) && apis.Keys == l.apis.Keys
    requires forall i | i in apis :: SameApi(l.apis[i], apis[i]) && apis[i].scope == l.apis[i].scope
    ensures Isomorphic(PartOf(l, scope), PartOf(l.(apis := apis), scope))
  {
    var keep := InScope(l, scope);
    assert InScope(l.(apis := apis), scope) == keep;
    var api := map x | x in keep :: x;
    assert api.Values == keep by {
      forall x | x in keep ensures x in api.Values {
        assert api[x] == x;
      }
    }
    var req := RowsSelf(l.req, l.apis.Keys, keep, api);
    var resp := RowsSelf(l.resp, l.apis.Keys, keep, api);
    assert Iso(PartOf(l, scope), PartOf(l.(apis := apis), scope), Renaming(api, req, resp));
  }

  lemma SameLiveIso(db: Db, s: Id)
    requires DbOk(db)
    ensures Isomorphic(PartOf(db.live, s), PartOf(db.live, s))
  {
    RecategorizedIso(db.live, db.services.Keys, db.live.apis, s);
    assert db.live.(apis := db.live.apis) == db.live;
  }

  lemma CategorizeKeepsLive(db: Db, api: Id, category: int, user: Id, s: Id)
    requires DbOk(db)
    ensures var db' := SetCategory(db, api, category, user).db;
      Isomorphic(PartOf(db.live, s), PartOf(db'.live, s)) && db'.services == db.services
  {
    if CategoryGuard(db, api, category, user).Granted? {
      var changed := Recategorized(db.live, api, if category == -1 then None else Some(category));
      RecategorizedIso(db.live, db.services.Keys, changed.apis, s);
    } else {
      SameLiveIso(db, s);
    }
  }

  lemma CommitElsewhereKeepsLive(db: Db, it: Id, version: string, user: Id, r: Response, db': Db, s: Id)
    requires DbOk(db) && CommitIteration(db, it, version, user, r, db') && s in db.services
    requires it in db.iterations ==> db.iterations[it].service != s
    ensures PartOf(db'.live, s) == PartOf(db.live, s)
    ensures s in db'.services && db'.services[s] == db.services[s]
  {
    if db' != db {
      var m :| Committed(db, it, version, db', m);
      var z := db.iterations[it].service;
      ClearedLayer(db.live, db.services.Keys, z);
      ClearedElsewhere(db.live, db.services.Keys, z, s);
      LayerCopyElsewhere(db.draft, it, ClearScope(db.live, z), db.services.Keys, z, db'.live, m, s);
    }
  }

  /** Drafting never touches a live row. */
  lemma DraftingLeavesLive(db: Db, a: Action, r: Response, db': Db)
    requires Step(db, a, r, db') && !a.Committing? && !a.Categorizing?
    ensures db'.live == db.live
  {
  }

  lemma EditsKeepFrame(db: Db, a: Action, r: Response, db': Db)
    requires Step(db, a, r, db')
    requires a.Adding? || a.Copying? || a.Deleting? || a.Updating? || a.Categorizing?
    ensures db'.services == db.services && db'.iterations == db.iterations
  {
  }

  lemma DraftingKeepsService(db: Db, a: Action, r: Response, db': Db, s: Id)
    requires DbOk(db) && Step(db, a, r, db') && !a.Committing? && s in db.services
    ensures s in db'.services
    ensures db'.services[s].version == db.services[s].version
      && db'.services[s].description == db.services[s].description
  {
    if a.Adding? || a.Copying? || a.Deleting? || a.Updating? || a.Categorizing? {
      EditsKeepFrame(db, a, r, db');
    }
  }

  /** Unless a request publishes to a service, its live part stays the same up to categories, with its version and
      description. */
  lemma LiveKept(db: Db, a: Action, r: Response, db': Db, s: Id)
    requires DbOk(db) && Step(db, a, r, db') && s in db.services
    requires KeepsLive(db, a, r, s)
    ensures Isomorphic(PartOf(db.live, s), PartOf(db'.live, s))
    ensures s in db'.services
    ensures db'.services[s].version == db.services[s].version
      && db'.services[s].description == db.services[s].description
  {
    SameLiveIso(db, s);
    match a
    case Committing(it, version, user) =>
      if db' != db {
        CommitElsewhereKeepsLive(db, it, version, user, r, db', s);
      }
    case Categorizing(api, category, user) =>
      DraftingKeepsService(db, a, r, db', s);
      CategorizeKeepsLive(db, api, category, user, s);
    case _ =>
      DraftingKeepsService(db, a, r, db', s);
      DraftingLeavesLive(db, a, r, db');
  }

  /** Publishing: the live part becomes a copy of the drafts, under keys that no live row had before. */
  lemma PublishReplaces(db: Db, a: Action, r: Response, db': Db, s: Id, it: Id)
    requires DbOk(db) && Step(db, a, r, db') && Publishes(db, a, r, s, it)
    ensures s in db'.services && it in db'.iterations
    ensures Isomorphic(PartOf(db'.draft, it), PartOf(db'.live, s))
    ensures PartOf(db'.draft, it) == PartOf(db.draft, it)
    ensures PartOf(db'.live, s).apis.Keys !! db.live.apis.Keys
    ensures db'.services[s].version == a.version && db'.services[s].description == db.iterations[it].description
    ensures db'.iterations[it] == db.iterations[it].(version := Some(a.version), committed := true)
  {
    assert Guard(db, it, a.user).Granted?;
    var m :| Committed(db, it, a.version, db', m);
    ClearedLayer(db.live, db.services.Keys, s);
    var cleared := ClearScope(db.live, s);
    LayerCopyIso(db.draft, it, cleared, db.services.Keys, s, db'.live, m);
    forall i | i in PartOf(db'.live, s).apis ensures i !in db.live.apis {
      assert i in cleared.apis ==> i in InScope(cleared, s);
    }
  }
}
