/** The database as an object that the request handlers change in place; every handler is proved to be one step. */
module Database {
  import opened Model
  import opened Forests
  import opened Tables
  import opened Codec
  import opened Catalog
  import opened Actions
  import opened Invariants
  import opened Layers

  lemma IsDuplicated(db: Db, id: Id, user: Id, suffix: string, db': Db, req: map<Id, Id>, resp: map<Id, Id>)
    requires id in db.draft.apis
    requires var n := db.draft.nextApi;
      && db'.draft.apis == db.draft.apis[n := Duplicate(db.draft.apis[id], user, suffix)] && db'.draft.nextApi == n + 1
      && TableCopy(db.draft.req, map[id := n], db.draft.req, db'.draft.req, req)
      && TableCopy(db.draft.resp, map[id := n], db.draft.resp, db'.draft.resp, resp)
    requires db' == db.(draft := db'.draft)
    ensures exists req, resp :: Duplicated(db, id, user, suffix, db', req, resp)
  {
    assert Duplicated(db, id, user, suffix, db', req, resp);
  }

  class Database {
    var users: map<Id, int>
    var categories: map<Id, Id>
    var services: map<Id, Service>
    var nextService: Id
    var iterations: map<Id, Iteration>
    var nextIteration: Id
    const live: LayerStore
    const draft: LayerStore

    ghost function View(): Db
      reads this, live, live.req, live.resp, draft, draft.req, draft.resp
    {
      Db(users, categories, services, nextService, iterations, nextIteration, live.Value(), draft.Value())
    }

    /** The tables are separate objects with keys below their counters. */
    ghost predicate Wired()
      reads this, live, live.req, live.resp, draft, draft.req, draft.resp
    {
      live.Valid() && draft.Valid() && live.ApartFrom(draft)
    }

    ghost predicate Valid()
      reads this, live, live.req, live.resp, draft, draft.req, draft.resp
    {
      Wired() && DbOk(View())
    }

    constructor (users: map<Id, int>, categories: map<Id, Id>)
      ensures Valid() && Fresh(View()) && View().users == users && View().categories == categories
    {
      this.users, this.categories := users, categories;
      services, nextService, iterations, nextIteration := map[], 1, map[], 1;
      live := new LayerStore();
      draft := new LayerStore();
      new;
      FreshIsOk(View());
    }

    method CreateNewService(uuid: string, owner: Id, description: Option<string>) returns (r: Response)
      requires Wired()
      modifies this
      ensures Wired() && Outcome(r, View()) == CreateService(old(View()), uuid, owner, description)
    {
      if exists s :: s in services && services[s].uuid == uuid {
        return Failed(-1);
      }
      services := services[nextService := Service(uuid, owner, {}, "0.0.1", description, false)];
      r := Success(nextService);
      nextService := nextService + 1;
    }

    method CheckPermission(it: Id, user: Id) returns (v: Verdict)
      ensures v == Guard(View(), it, user)
    {
      if it !in iterations || iterations[it].committed {
        return Denied(-10);
      }
      var s := iterations[it].service;
      if s !in services {
        return NoRow;
      }
      if services[s].owner != user && iterations[it].creator != user {
        if user !in users {
          return NoRow;
        }
        if users[user] != 0 {
          return Denied(-30);
        }
      }
      return Granted;
    }

    method StartIteration(service: Id, user: Id) returns (r: Response)
      requires Valid()
      modifies this, draft, draft.req, draft.resp
      ensures Wired() && Actions.StartIteration(old(View()), service, user, r, View())
    {
      ghost var db := View();
      if service !in services {
        return Failed(-1);
      }
      if services[service].owner != user && user !in services[service].maintainers {
        if user !in users {
          return Crashed;
        }
        if users[user] != 0 {
          return Failed(-2);
        }
      }
      if exists i :: i in iterations && iterations[i].service == service && !iterations[i].committed
                     && iterations[i].creator == user {
        var i :| i in iterations && iterations[i].service == service && !iterations[i].committed
                 && iterations[i].creator == user;
        assert OpenIteration(db, service, user, i);
        return InProgress(i);
      }
      r := Success(nextIteration);
      ghost var m := OpenDrafts(service, user);
      assert forall i :: !OpenIteration(db, service, user, i);
    }

    /** The new iteration row, and the copies of the live APIs below it. */
    method OpenDrafts(service: Id, user: Id) returns (ghost m: Renaming)
      requires Valid()
      modifies this, draft, draft.req, draft.resp
      ensures Wired() && Started(old(View()), service, user, View(), m)
    {
      ghost var db := View();
      var n := nextIteration;
      iterations := iterations[n := Iteration(service, user, None, None, false)];
      nextIteration := nextIteration + 1;
      assert InScope(db.draft, n) == {};
      var ok;
      ok, m := draft.CopyScope(live, service, n, db.services.Keys, db.iterations.Keys);
    }

    method CommitIteration(it: Id, version: string, user: Id) returns (r: Response)
      requires Valid()
      modifies this, live, live.req, live.resp
      ensures Wired() && Actions.CommitIteration(old(View()), it, version, user, r, View())
    {
      ghost var db := View();
      var v := CheckPermission(it, user);
      if v.Denied? {
        return GuardRecord(v.status);
      }
      if v.NoRow? {
        return Crashed;
      }
      var s := iterations[it].service;
      if version == services[s].version {
        return Failed(-1);
      }
      ghost var m := Publish(it, s, version);
      r := Done;
    }

    /** The service takes over the iteration's description, the new version and the drafts; the iteration is closed. */
    method Publish(it: Id, s: Id, version: string) returns (ghost m: Renaming)
      requires Valid() && it in iterations && iterations[it].service == s && s in services
      modifies this, live, live.req, live.resp
      ensures Wired() && Committed(old(View()), it, version, View(), m)
    {
      ghost var db := View();
      services := services[s := services[s].(description := iterations[it].description, version := version)];
      m := live.ReplaceScope(draft, it, s, db.draft, db.iterations.Keys, db.live, db.services.Keys);
      iterations := iterations[it := iterations[it].(version := Some(version), committed := true)];
    }

    method UpdateDescription(it: Id, text: Option<string>, user: Id) returns (r: Response)
      requires Wired()
      modifies `iterations
      ensures Wired() && Outcome(r, View()) == SetDescription(old(View()), it, text, user)
    {
      ghost var db := View();
      var v := CheckPermission(it, user);
      if !v.Granted? {
        return Refusal(v);
      }
      iterations := iterations[it := iterations[it].(description := text)];
      r := Done;
    }

    method AddApi(it: Id, user: Id, name: string, verb: string, path: string, description: Option<string>,
                  level: string, category: Option<Id>) returns (r: Response)
      requires Wired()
      modifies draft
      ensures Wired() &&
        Outcome(r, View()) == Actions.AddApi(old(View()), it, user, name, verb, path, description, level, category)
    {
      ghost var db := View();
      var v := CheckPermission(it, user);
      if !v.Granted? {
        return Refusal(v);
      }
      var s := iterations[it].service;
      if Clashes(live.apis, s, verb, path, name) || Clashes(draft.apis, it, verb, path, name) {
        return Failed(-1);
      }
      if category.Some? {
        if category.value !in categories {
          return Failed(-2);
        }
        if categories[category.value] != s {
          return Failed(-3);
        }
      }
      var row := Api(it, user, category, name, ParseVerb(verb), path, description, ParseLevel(level), true);
      var ok, id := draft.InsertApi(row);
      if !ok {
        return Crashed;
      }
      r := Success(id);
    }

    /** The draft exists and belongs to the iteration, checked after the permission. */
    method CheckDraft(it: Id, id: Id, user: Id) returns (v: Verdict)
      ensures v == DraftGuard(View(), it, id, user)
    {
      v := CheckPermission(it, user);
      if v.Granted? {
        if id !in draft.apis {
          return Denied(-1);
        }
        if draft.apis[id].scope != it {
          return Denied(-2);
        }
      }
    }

    method CopyApi(it: Id, id: Id, user: Id, suffix: string) returns (r: Response)
      requires Valid()
      modifies draft, draft.req, draft.resp
      ensures Wired() && Actions.CopyApi(old(View()), it, id, user, suffix, r, View())
    {
      ghost var db := View();
      var v := CheckDraft(it, id, user);
      if !v.Granted? {
        return Refusal(v);
      }
      var row := draft.apis[id];
      row := row.(owner := user, name := row.name + suffix, path := row.path + suffix);
      ghost var req, resp;
      var ok;
      ok, req, resp := draft.DuplicateApi(id, row, db.iterations.Keys);
      if !ok {
        return Crashed;
      }
      r := Done;
      IsDuplicated(db, id, user, suffix, View(), req, resp);
    }

    method DeleteApi(it: Id, id: Id, user: Id) returns (r: Response)
      requires Wired()
      modifies draft, draft.req, draft.resp
      ensures Wired() && Outcome(r, View()) == Actions.DeleteApi(old(View()), it, id, user)
    {
      ghost var db := View();
      var v := CheckDraft(it, id, user);
      if !v.Granted? {
        return Refusal(v);
      }
      draft.DeleteApi(id);
      r := Done;
    }

    /** The unique constraint is checked where the source's flush would raise; nothing has been changed then. */
    method UpdateApi(it: Id, id: Id, user: Id, name: string, verb: string, path: string, description: Option<string>,
                     level: string, req: Forest<Input>, resp: Forest<Input>) returns (r: Response)
      requires Wired()
      modifies draft, draft.req, draft.resp
      ensures Wired() &&
        Outcome(r, View())
          == Actions.UpdateApi(old(View()), it, id, user, name, verb, path, description, level, req, resp)
    {
      ghost var db := View();
      var v := CheckDraft(it, id, user);
      if !v.Granted? {
        return Refusal(v);
      }
      if Taken(draft.apis - {id}, it, ParseVerb(verb), name) {
        return Crashed;
      }
      var row := draft.apis[id].(name := name, verb := ParseVerb(verb), path := path, description := description,
                                 level := ParseLevel(level));
      draft.RewriteApi(id, row, req, resp);
      r := Done;
    }

    method UpdateApiCategory(api: Id, category: int, user: Id) returns (r: Response)
      requires Wired()
      modifies live
      ensures Wired() && Outcome(r, View()) == SetCategory(old(View()), api, category, user)
    {
      ghost var db := View();
      if api !in live.apis {
        return Failed(-1);
      }
      if user !in users {
        return Failed(-2);
      }
      var row := live.apis[api];
      if row.scope !in services {
        return Crashed;
      }
      if services[row.scope].owner != user && user !in services[row.scope].maintainers && users[user] != 0 {
        return Failed(-3);
      }
      if row.category.Some? && row.category.value == category {
        return Failed(-4);
      }
      if category == -1 {
        live.apis := live.apis[api := row.(category := None)];
        return Done;
      }
      if category < 0 || category !in categories {
        return Failed(-5);
      }
      if categories[category] != row.scope {
        return Failed(-6);
      }
      live.apis := live.apis[api := row.(category := Some(category))];
      r := Done;
    }

    /** Find a version of a service by the service's name, then check whether the user may see it. */
    method LookupVersion(uuid: string, version: string, user: Id) returns (found: Found, v: Verdict)
      ensures Locates(View(), uuid, version, found) && v == ViewGuard(View(), found, user)
    {
      if !exists s :: s in services && services[s].uuid == uuid && !services[s].deleted {
        return NoService, Denied(-1);
      }
      var s :| s in services && services[s].uuid == uuid && !services[s].deleted;
      if services[s].version == version || version == "latest" {
        found := Latest(s);
      } else if exists i :: i in iterations && iterations[i].service == s && iterations[i].version == Some(version) {
        var i :| i in iterations && iterations[i].service == s && iterations[i].version == Some(version);
        found := Past(s, i);
      } else {
        return NoVersion(s), Denied(-2);
      }
      v := Granted;
      if services[s].owner != user && user !in services[s].maintainers {
        if user !in users {
          v := NoRow;
        } else if users[user] != 0 {
          if found.Latest? {
            v := Denied(-3);
          } else if iterations[found.iteration].creator != user {
            v := Denied(-4);
          }
        }
      }
    }

    /** Any request of the model: one step of the database, which stays well formed. */
    method Handle(a: Action) returns (r: Response)
      requires Valid() && !a.Other?
      modifies this, live, live.req, live.resp, draft, draft.req, draft.resp
      ensures Valid() && Step(old(View()), a, r, View())
    {
      match a {
        case CreatingService(uuid, owner, text) => r := CreateNewService(uuid, owner, text);
        case Starting(service, user) => r := StartIteration(service, user);
        case Committing(it, version, user) => r := CommitIteration(it, version, user);
        case Describing(it, text, user) => r := UpdateDescription(it, text, user);
        case Adding(it, user, name, verb, path, text, level, category) =>
          r := AddApi(it, user, name, verb, path, text, level, category);
        case Copying(it, id, user, suffix) => r := CopyApi(it, id, user, suffix);
        case Deleting(it, id, user) => r := DeleteApi(it, id, user);
        case Updating(it, id, user, name, verb, path, text, level, req, resp) =>
          r := UpdateApi(it, id, user, name, verb, path, text, level, req, resp);
        case Categorizing(api, category, user) => r := UpdateApiCategory(api, category, user);
      }
      StepKeepsOk(old(View()), a, r, View());
    }
  }
}
