/** The requests that change the database, as relations between the database before, the response and the database
    after. */
module Actions {
  import opened Model
  import opened Forests
  import opened Tables
  import opened Codec
  import opened Catalog

  /** Crashed: an exception leaves the handler and the transaction is rolled back. */
  datatype Response =
    | Done
    | Success(id: Id)
    | InProgress(id: Id)
    | Failed(status: int)
    | GuardRecord(status: int)
    | Crashed

  datatype Outcome = Outcome(response: Response, db: Db)

  // ---- the guard of every drafting request ----

  datatype Verdict = Granted | Denied(status: int) | NoRow

  /** Whether `user` may work on iteration `it`. A missing user or service row is an attribute access on None. */
  function Guard(db: Db, it: Id, user: Id): (v: Verdict)
    ensures v.Granted? <==>
              && it in db.iterations && !db.iterations[it].committed
              && db.iterations[it].service in db.services
              && (user == db.services[db.iterations[it].service].owner || user == db.iterations[it].creator
                  || (user in db.users && db.users[user] == 0))
    ensures v != Denied(-20)
  {
    if it !in db.iterations || db.iterations[it].committed then Denied(-10)
    else if db.iterations[it].committed then Denied(-20)
    else if db.iterations[it].service !in db.services then NoRow
    else if db.services[db.iterations[it].service].owner != user && db.iterations[it].creator != user then
      if user !in db.users then NoRow
      else if db.users[user] != 0 then Denied(-30)
      else Granted
    else Granted
  }

  /** Most requests return the guard's error; committing returns the guard's whole record instead. */
  function Refusal(v: Verdict): Response {
    if v.Denied? then Failed(v.status) else Crashed
  }

  // ---- creating a service ----

  predicate UuidTaken(db: Db, uuid: string) {
    exists s :: s in db.services && db.services[s].uuid == uuid
  }

  function CreateService(db: Db, uuid: string, owner: Id, description: Option<string>): Outcome {
    if UuidTaken(db, uuid) then Outcome(Failed(-1), db)
    else
      var s := Service(uuid, owner, {}, "0.0.1", description, false);
      Outcome(Success(db.nextService),
              db.(services := db.services[db.nextService := s], nextService := db.nextService + 1))
  }

  // ---- starting an iteration ----

  predicate OpenIteration(db: Db, service: Id, user: Id, i: Id) {
    && i in db.iterations
    && db.iterations[i].service == service
    && !db.iterations[i].committed
    && db.iterations[i].creator == user
  }

  /** Whether `user` may start an iteration of `service`. */
  function StartGuard(db: Db, service: Id, user: Id): (v: Verdict)
    ensures v.Granted? <==>
              && service in db.services
              && (user == db.services[service].owner || user in db.services[service].maintainers
                  || (user in db.users && db.users[user] == 0))
  {
    if service !in db.services then Denied(-1)
    else if db.services[service].owner != user && user !in db.services[service].maintainers then
      if user !in db.users then NoRow
      else if db.users[user] != 0 then Denied(-2)
      else Granted
    else Granted
  }

  /** A new open iteration holds a copy of the live APIs of its service; nothing else changes. */
  ghost predicate Started(db: Db, service: Id, user: Id, db': Db, m: Renaming) {
    var n := db.nextIteration;
    && LayerCopy(db.live, service, db.draft, n, db'.draft, m)
    && db' == db.(iterations := db.iterations[n := Iteration(service, user, None, None, false)],
                  nextIteration := n + 1,
                  draft := db'.draft)
  }

  ghost predicate StartIteration(db: Db, service: Id, user: Id, r: Response, db': Db) {
    var g := StartGuard(db, service, user);
    if !g.Granted? then r == Refusal(g) && db' == db
    else if exists i :: OpenIteration(db, service, user, i) then
      r.InProgress? && OpenIteration(db, service, user, r.id) && db' == db
    else
      r == Success(db.nextIteration) && exists m :: Started(db, service, user, db', m)
  }

  // ---- committing an iteration ----

  /** The live APIs of the service are replaced by a copy of the drafts; version and description move along. */
  ghost predicate Committed(db: Db, it: Id, version: string, db': Db, m: Renaming)
    requires it in db.iterations && db.iterations[it].service in db.services
  {
    var s := db.iterations[it].service;
    && LayerCopy(db.draft, it, ClearScope(db.live, s), s, db'.live, m)
    && db' == db.(services := db.services[s := db.services[s].(version := version,
                                                               description := db.iterations[it].description)],
                  iterations := db.iterations[it := db.iterations[it].(version := Some(version), committed := true)],
                  live := db'.live)
  }

  ghost predicate CommitIteration(db: Db, it: Id, version: string, user: Id, r: Response, db': Db) {
    var g := Guard(db, it, user);
    if g.Denied? then r == GuardRecord(g.status) && db' == db
    else if g.NoRow? then r == Crashed && db' == db
    else if version == db.services[db.iterations[it].service].version then r == Failed(-1) && db' == db
    else r == Done && exists m :: Committed(db, it, version, db', m)
  }

  // ---- editing an iteration ----

  function SetDescription(db: Db, it: Id, text: Option<string>, user: Id): Outcome {
    var g := Guard(db, it, user);
    if !g.Granted? then Outcome(Refusal(g), db)
    else Outcome(Done, db.(iterations := db.iterations[it := db.iterations[it].(description := text)]))
  }

  /** The method as given (unknown methods match nothing) with the same path or name. */
  predicate Clashes(apis: map<Id, Api>, scope: Id, verb: string, path: string, name: string) {
    exists i :: i in apis && apis[i].scope == scope && VerbName(apis[i].verb) == verb
                && (apis[i].path == path || apis[i].name == name)
  }

  function AddApi(db: Db, it: Id, user: Id, name: string, verb: string, path: string, description: Option<string>,
                  level: string, category: Option<Id>): Outcome
  {
    var g := Guard(db, it, user);
    if !g.Granted? then Outcome(Refusal(g), db)
    else if Clashes(db.live.apis, db.iterations[it].service, verb, path, name)
            || Clashes(db.draft.apis, it, verb, path, name) then Outcome(Failed(-1), db)
    else if category.Some? && category.value !in db.categories then Outcome(Failed(-2), db)
    else if category.Some? && db.categories[category.value] != db.iterations[it].service then Outcome(Failed(-3), db)
    else if Taken(db.draft.apis, it, ParseVerb(verb), name) then Outcome(Crashed, db)
    else
      var n := db.draft.nextApi;
      var row := Api(it, user, category, name, ParseVerb(verb), path, description, ParseLevel(level), true);
      Outcome(Success(n), db.(draft := db.draft.(apis := db.draft.apis[n := row], nextApi := n + 1)))
  }

  /** Whether `draft` belongs to iteration `it`, after the guard. */
  function DraftGuard(db: Db, it: Id, draft: Id, user: Id): (v: Verdict)
    ensures v.Granted? <==> Guard(db, it, user).Granted? && draft in db.draft.apis && db.draft.apis[draft].scope == it
    ensures Guard(db, it, user).Granted? && draft in db.draft.apis && db.draft.apis[draft].scope != it ==>
      v == Denied(-2)
  {
    var g := Guard(db, it, user);
    if !g.Granted? then g
    else if draft !in db.draft.apis then Denied(-1)
    else if db.draft.apis[draft].scope != it then Denied(-2)
    else Granted
  }

  function Duplicate(a: Api, user: Id, suffix: string): Api {
    a.(owner := user, name := a.name + suffix, path := a.path + suffix)
  }

  /** One more draft in the same iteration, with copies of the rows of `draft`. */
  ghost predicate Duplicated(db: Db, draft: Id, user: Id, suffix: string, db': Db, req: map<Id, Id>, resp: map<Id, Id>)
    requires draft in db.draft.apis
  {
    var n := db.draft.nextApi;
    && TableCopy(db.draft.req, map[draft := n], db.draft.req, db'.draft.req, req)
    && TableCopy(db.draft.resp, map[draft := n], db.draft.resp, db'.draft.resp, resp)
    && db' == db.(draft := Layer(db.draft.apis[n := Duplicate(db.draft.apis[draft], user, suffix)], n + 1,
                                 db'.draft.req, db'.draft.resp))
  }

  ghost predicate CopyApi(db: Db, it: Id, draft: Id, user: Id, suffix: string, r: Response, db': Db) {
    var g := DraftGuard(db, it, draft, user);
    if !g.Granted? then r == Refusal(g) && db' == db
    else
      var copy := Duplicate(db.draft.apis[draft], user, suffix);
      if Taken(db.draft.apis, it, copy.verb, copy.name) then r == Crashed && db' == db
      else r == Done && exists req, resp :: Duplicated(db, draft, user, suffix, db', req, resp)
  }

  function DeleteApi(db: Db, it: Id, draft: Id, user: Id): Outcome {
    var g := DraftGuard(db, it, draft, user);
    if !g.Granted? then Outcome(Refusal(g), db)
    else Outcome(Done, db.(draft := Layer(db.draft.apis - {draft}, db.draft.nextApi,
                                          DropOwners(db.draft.req, {draft}), DropOwners(db.draft.resp, {draft}))))
  }

  /** The rows of `draft` replaced by the given nested input. */
  function Rewritten(t: Table, draft: Id, params: Forest<Input>, side: Side): Table {
    Put(DropOwners(t, {draft}), Normal(params, Missing, side), draft, None)
  }

  function UpdateApi(db: Db, it: Id, draft: Id, user: Id, name: string, verb: string, path: string,
                     description: Option<string>, level: string, req: Forest<Input>, resp: Forest<Input>): Outcome
  {
    var g := DraftGuard(db, it, draft, user);
    if !g.Granted? then Outcome(Refusal(g), db)
    else if Taken(db.draft.apis - {draft}, it, ParseVerb(verb), name) then Outcome(Crashed, db)
    else
      var row := db.draft.apis[draft].(name := name, verb := ParseVerb(verb), path := path, description := description,
                                       level := ParseLevel(level));
      Outcome(Done, db.(draft := Layer(db.draft.apis[draft := row], db.draft.nextApi,
                                       Rewritten(db.draft.req, draft, req, Request),
                                       Rewritten(db.draft.resp, draft, resp, Response))))
  }

  // ---- the one request that changes a live API ----

  /** Whether `user` may move live API `api` to `category`; -1 means to no category. */
  function CategoryGuard(db: Db, api: Id, category: int, user: Id): (v: Verdict)
    ensures v.Granted? <==>
              && api in db.live.apis && user in db.users && db.live.apis[api].scope in db.services
              && (var s := db.services[db.live.apis[api].scope];
                  user == s.owner || user in s.maintainers || db.users[user] == 0)
              && !(category >= 0 && db.live.apis[api].category == Some(category))
              && (category == -1
                  || (0 <= category && category in db.categories && db.categories[category] == db.live.apis[api].scope))
  {
    if api !in db.live.apis then Denied(-1)
    else if user !in db.users then Denied(-2)
    else if db.live.apis[api].scope !in db.services then NoRow
    else if db.services[db.live.apis[api].scope].owner != user
            && user !in db.services[db.live.apis[api].scope].maintainers && db.users[user] != 0 then Denied(-3)
    else if db.live.apis[api].category.Some? && db.live.apis[api].category.value == category then Denied(-4)
    else if category == -1 then Granted
    else if category < 0 || category !in db.categories then Denied(-5)
    else if db.categories[category] != db.live.apis[api].scope then Denied(-6)
    else Granted
  }

  function Recategorized(l: Layer, api: Id, category: Option<Id>): Layer
    requires api in l.apis
  {
    l.(apis := l.apis[api := l.apis[api].(category := category)])
  }

  function SetCategory(db: Db, api: Id, category: int, user: Id): Outcome {
    var g := CategoryGuard(db, api, category, user);
    if !g.Granted? then Outcome(Refusal(g), db)
    else Outcome(Done, db.(live := Recategorized(db.live, api, if category == -1 then None else Some(category))))
  }

  /** Requests outside this model: they touch users, maintainers, categories and the soft-delete mark only. */
  predicate Elsewhere(db: Db, db': Db) {
    && db' == db.(users := db'.users, categories := db'.categories, services := db'.services)
    && db'.services.Keys == db.services.Keys
    && forall s | s in db.services ::
      db'.services[s] == db.services[s].(maintainers := db'.services[s].maintainers, deleted := db'.services[s].deleted)
  }

  // ---- looking a version up ----

  datatype Found = NoService | NoVersion(service: Id) | Latest(service: Id) | Past(service: Id, iteration: Id)

  /** What a lookup may find: the live version, or an iteration recorded under that version. */
  ghost predicate Locates(db: Db, uuid: string, version: string, found: Found) {
    && (found.NoService? <==> !exists s :: s in db.services && db.services[s].uuid == uuid && !db.services[s].deleted)
    && (!found.NoService? ==>
          var s := found.service;
          && s in db.services && db.services[s].uuid == uuid && !db.services[s].deleted
          && (found.Latest? <==> version == db.services[s].version || version == "latest")
          && (found.Past? ==>
                found.iteration in db.iterations && db.iterations[found.iteration].service == s
                && db.iterations[found.iteration].version == Some(version))
          && (found.NoVersion? ==>
                forall i | i in db.iterations && db.iterations[i].service == s ::
                  db.iterations[i].version != Some(version)))
  }

  /** Whether `user` may see what was found: owner, maintainers and level 0 users anything, others only iterations of
      their own. */
  function ViewGuard(db: Db, found: Found, user: Id): (v: Verdict)
    requires !found.NoService? ==> found.service in db.services
    requires found.Past? ==> found.iteration in db.iterations
    ensures v.Granted? <==>
              && (found.Latest? || found.Past?)
              && (|| user == db.services[found.service].owner || user in db.services[found.service].maintainers
                  || (user in db.users
                    && (db.users[user] == 0 || (found.Past? && user == db.iterations[found.iteration].creator))))
  {
    if found.NoService? then Denied(-1)
    else if found.NoVersion? then Denied(-2)
    else if db.services[found.service].owner != user && user !in db.services[found.service].maintainers then
      if user !in db.users then NoRow
      else if db.users[user] == 0 then Granted
      else if found.Latest? then Denied(-3)
      else if db.iterations[found.iteration].creator != user then Denied(-4)
      else Granted
    else Granted
  }

  // ---- steps ----

  datatype Action =
    | CreatingService(uuid: string, owner: Id, text: Option<string>)
    | Starting(service: Id, user: Id)
    | Committing(it: Id, version: string, user: Id)
    | Describing(it: Id, text: Option<string>, user: Id)
    | Adding(it: Id, user: Id, name: string, verb: string, path: string, text: Option<string>, level: string,
             category: Option<Id>)
    | Copying(it: Id, draft: Id, user: Id, suffix: string)
    | Deleting(it: Id, draft: Id, user: Id)
    | Updating(it: Id, draft: Id, user: Id, name: string, verb: string, path: string, text: Option<string>,
      level: string,
               req: Forest<Input>, resp: Forest<Input>)
    | Categorizing(api: Id, newCategory: int, user: Id)
    | Other

  ghost predicate Step(db: Db, a: Action, r: Response, db': Db) {
    match a
    case CreatingService(uuid, owner, text) => Outcome(r, db') == CreateService(db, uuid, owner, text)
    case Starting(service, user) => StartIteration(db, service, user, r, db')
    case Committing(it, version, user) => CommitIteration(db, it, version, user, r, db')
    case Describing(it, text, user) => Outcome(r, db') == SetDescription(db, it, text, user)
    case Adding(it, user, name, verb, path, text, level, category) =>
      Outcome(r, db') == AddApi(db, it, user, name, verb, path, text, level, category)
    case Copying(it, draft, user, suffix) => CopyApi(db, it, draft, user, suffix, r, db')
    case Deleting(it, draft, user) => Outcome(r, db') == DeleteApi(db, it, draft, user)
    case Updating(it, draft, user, name, verb, path, text, level, req, resp) =>
      Outcome(r, db') == UpdateApi(db, it, draft, user, name, verb, path, text, level, req, resp)
    case Categorizing(api, category, user) => Outcome(r, db') == SetCategory(db, api, category, user)
    case Other => Elsewhere(db, db')
  }
}
