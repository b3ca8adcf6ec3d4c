/** Every request has an answer in every well-formed database: none of the steps is stuck. */
module Answers {
  import opened Model
  import opened Tables
  import opened Descent
  import opened ParamTables
  import opened Catalog
  import opened Actions
  import opened Invariants

  /** Any finite set of rows can be given fresh keys. */
  lemma {:induction false} FreshKeys(ids: set<Id>, next: Id) returns (m: map<Id, Id>, after: Id)
    ensures m.Keys == ids && Injective(m) && next <= after
    ensures forall x | x in m :: next <= m[x] < after
    decreases |ids|
  {
    if ids == {} {
      m, after := map[], next;
    } else {
      var x :| x in ids;
      var rest, last := FreshKeys(ids - {x}, next);
      RenamingGrows(x, last, rest);
      m, after := rest[x := last], last + 1;
    }
  }

  function CopyOf(r: Row, owners: map<Id, Id>, m: map<Id, Id>): Row
    requires r.owner in owners && (r.parent.Some? ==> r.parent.value in m)
  {
    Row(owners[r.owner], if r.parent.Some? then Some(m[r.parent.value]) else None, r.payload)
  }

  lemma CopiedParents(src: Table, srcOwners: set<Id>, owners: map<Id, Id>, x: Id)
    requires TableOk(src, srcOwners) && x in OwnedIds(src, owners.Keys) && src.rows[x].parent.Some?
    ensures src.rows[x].parent.value in OwnedIds(src, owners.Keys)
  {
    assert ParentOkAt(src.rows, x);
  }

  /** The rows of any owners of a well-formed table can be copied. */
  lemma TableCopyExists(src: Table, srcOwners: set<Id>, owners: map<Id, Id>, before: Table)
    returns (after: Table, m: map<Id, Id>)
    requires TableOk(src, srcOwners) && forall i | i in before.rows :: i < before.next
    ensures TableCopy(src, owners, before, after, m)
  {
    var ids := OwnedIds(src, owners.Keys);
    var next;
    m, next := FreshKeys(ids, before.next);
    var inv := InverseExists(m);
    forall x | x in ids && src.rows[x].parent.Some? ensures src.rows[x].parent.value in m {
      CopiedParents(src, srcOwners, owners, x);
    }
    var copies := map y | y in inv :: CopyOf(src.rows[inv[y]], owners, m);
    after := Table(before.rows + copies, next);
    assert copies.Keys == m.Values;
    forall y | y in m.Values ensures y !in before.rows {
      var x :| x in m && m[x] == y;
    }
    forall x | x in m ensures CopiedAt(src, owners, after, m, x) {
      assert m[x] in m.Values && inv[m[x]] == x;
    }
  }

  lemma ApisCopyExists(src: map<Id, Api>, ids: set<Id>, before: map<Id, Api>, nextBefore: Id, n: Id)
    returns (after: map<Id, Api>, nextAfter: Id, m: map<Id, Id>)
    requires ids <= src.Keys && forall i | i in before :: i < nextBefore
    ensures m.Keys == ids && ApisCopied(src, before, nextBefore, n, after, nextAfter, m)
  {
    m, nextAfter := FreshKeys(ids, nextBefore);
    var inv := InverseExists(m);
    var copies := map y | y in inv :: src[inv[y]].(scope := n);
    after := before + copies;
    assert copies.Keys == m.Values;
    forall y | y in m.Values ensures y !in before {
      var x :| x in m && m[x] == y;
    }
    forall x | x in m ensures ApiCopiedAt(src, n, after, m, x) {
      assert m[x] in m.Values && inv[m[x]] == x;
    }
  }

  /** Any scope of a well-formed layer can be copied into another layer. */
  lemma LayerCopyExists(src: Layer, srcScopes: set<Id>, s: Id, before: Layer, scopes: set<Id>, n: Id)
    returns (after: Layer, m: Renaming)
    requires LayerOk(src, srcScopes) && LayerOk(before, scopes)
    ensures LayerCopy(src, s, before, n, after, m)
  {
    var apis, next, api := ApisCopyExists(src.apis, InScope(src, s), before.apis, before.nextApi, n);
    var req, reqMap := TableCopyExists(src.req, src.apis.Keys, api, before.req);
    var resp, respMap := TableCopyExists(src.resp, src.apis.Keys, api, before.resp);
    after, m := Layer(apis, next, req, resp), Renaming(api, reqMap, respMap);
  }

  lemma StartAnswers(db: Db, service: Id, user: Id) returns (r: Response, db': Db)
    requires DbOk(db)
    ensures StartIteration(db, service, user, r, db')
  {
    var g := StartGuard(db, service, user);
    if !g.Granted? {
      r, db' := Refusal(g), db;
    } else if i :| OpenIteration(db, service, user, i) {
      r, db' := InProgress(i), db;
    } else {
      var n := db.nextIteration;
      var draft, m := LayerCopyExists(db.live, db.services.Keys, service, db.draft, db.iterations.Keys, n);
      r := Success(n);
      db' := db.(iterations := db.iterations[n := Iteration(service, user, None, None, false)],
                 nextIteration := n + 1, draft := draft);
      assert Started(db, service, user, db', m);
    }
  }

  lemma CommitAnswers(db: Db, it: Id, version: string, user: Id) returns (r: Response, db': Db)
    requires DbOk(db)
    ensures CommitIteration(db, it, version, user, r, db')
  {
    var g := Guard(db, it, user);
    if g.Denied? {
      r, db' := GuardRecord(g.status), db;
    } else if g.NoRow? {
      r, db' := Crashed, db;
    } else if version == db.services[db.iterations[it].service].version {
      r, db' := Failed(-1), db;
    } else {
      var s := db.iterations[it].service;
      ClearedLayer(db.live, db.services.Keys, s);
      var live, m := LayerCopyExists(db.draft, db.iterations.Keys, it, ClearScope(db.live, s), db.services.Keys, s);
      r := Done;
      db' := db.(services := db.services[s := db.services[s].(version := version,
                                                              description := db.iterations[it].description)],
                 iterations := db.iterations[it := db.iterations[it].(version := Some(version), committed := true)],
                 live := live);
      assert Committed(db, it, version, db', m);
    }
  }

  lemma CopyAnswers(db: Db, it: Id, draft: Id, user: Id, suffix: string) returns (r: Response, db': Db)
    requires DbOk(db)
    ensures CopyApi(db, it, draft, user, suffix, r, db')
  {
    var g := DraftGuard(db, it, draft, user);
    if !g.Granted? {
      r, db' := Refusal(g), db;
    } else {
      var copy, n := Duplicate(db.draft.apis[draft], user, suffix), db.draft.nextApi;
      if Taken(db.draft.apis, it, copy.verb, copy.name) {
        r, db' := Crashed, db;
      } else {
        var req, reqMap := TableCopyExists(db.draft.req, db.draft.apis.Keys, map[draft := n], db.draft.req);
        var resp, respMap := TableCopyExists(db.draft.resp, db.draft.apis.Keys, map[draft := n], db.draft.resp);
        r, db' := Done, db.(draft := Layer(db.draft.apis[n := copy], n + 1, req, resp));
        assert Duplicated(db, draft, user, suffix, db', reqMap, respMap);
      }
    }
  }

  /** Whatever is requested, there is an answer and a database after it. */
  lemma EveryRequestAnswers(db: Db, a: Action) returns (r: Response, db': Db)
    requires DbOk(db)
    ensures Step(db, a, r, db')
  {
    match a {
      case CreatingService(uuid, owner, text) =>
        r, db' := CreateService(db, uuid, owner, text).response, CreateService(db, uuid, owner, text).db;
      case Starting(service, user) => r, db' := StartAnswers(db, service, user);
      case Committing(it, version, user) => r, db' := CommitAnswers(db, it, version, user);
      case Describing(it, text, user) =>
        r, db' := SetDescription(db, it, text, user).response, SetDescription(db, it, text, user).db;
      case Adding(it, user, name, verb, path, text, level, category) =>
        var o := AddApi(db, it, user, name, verb, path, text, level, category);
        r, db' := o.response, o.db;
      case Copying(it, draft, user, suffix) => r, db' := CopyAnswers(db, it, draft, user, suffix);
      case Deleting(it, draft, user) => r, db' :=
        DeleteApi(db, it, draft, user).response, DeleteApi(db, it, draft, user).db;
      case Updating(it, draft, user, name, verb, path, text, level, req, resp) =>
        var o := UpdateApi(db, it, draft, user, name, verb, path, text, level, req, resp);
        r, db' := o.response, o.db;
      case Categorizing(api, category, user) =>
        r, db' := SetCategory(db, api, category, user).response, SetCategory(db, api, category, user).db;
      case Other => r, db' := Done, db;
    }
  }
}
