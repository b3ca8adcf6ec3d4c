/**
 * What every request answers and what it leaves in the database, request by request, read off the columns: exactly
 * when it succeeds, exactly when it is refused with which status, and what is written.
 */
module Outcomes {
  import opened Model
  import opened Forests
  import opened Tables
  import opened Codec
  import opened Catalog
  import opened Actions
  import opened Invariants
  import opened Frames
  import opened Runs

  // ---- who may work on an iteration ----

  predicate Pending(db: Db, it: Id) {
    it in db.iterations && !db.iterations[it].committed
  }

  predicate Related(db: Db, it: Id, user: Id)
    requires it in db.iterations && db.iterations[it].service in db.services
  {
    user == db.services[db.iterations[it].service].owner || user == db.iterations[it].creator
  }

  predicate TopLevel(db: Db, user: Id) {
    user in db.users && db.users[user] == 0
  }

  /** An open iteration of an existing service, and its creator, the service's owner or a level 0 user. */
  predicate Editable(db: Db, it: Id, user: Id) {
    Pending(db, it) && db.iterations[it].service in db.services && (Related(db, it, user) || TopLevel(db, user))
  }

  /** A known user who may not work on the iteration. */
  predicate Untrusted(db: Db, it: Id, user: Id) {
    && Pending(db, it) && db.iterations[it].service in db.services
    && !Related(db, it, user) && user in db.users && db.users[user] != 0
  }

  /** A missing service row, or a user without a row who would need one. */
  predicate Unknown(db: Db, it: Id, user: Id) {
    Pending(db, it) && (db.iterations[it].service in db.services ==> !Related(db, it, user) && user !in db.users)
  }

  /** The answers of an editing request that its guard refuses; `Crashed` has further causes in some requests. */
  predicate RefusedAs(db: Db, it: Id, user: Id, r: Response) {
    && (r == Failed(-10) <==> !Pending(db, it))
    && (r == Failed(-30) <==> Untrusted(db, it, user))
    && (Unknown(db, it, user) ==> r == Crashed)
  }

  lemma GuardAnswers(db: Db, it: Id, user: Id)
    ensures Guard(db, it, user).Granted? <==> Editable(db, it, user)
    ensures Guard(db, it, user) == Denied(-10) <==> !Pending(db, it)
    ensures Guard(db, it, user) == Denied(-30) <==> Untrusted(db, it, user)
    ensures Guard(db, it, user) == NoRow <==> Unknown(db, it, user)
  {
  }

  // ---- services ----

  /** A service is created exactly when its name is free, at version 0.0.1 and without maintainers. */
  lemma CreateOutcome(db: Db, uuid: string, owner: Id, text: Option<string>, r: Response, db': Db)
    requires Step(db, CreatingService(uuid, owner, text), r, db')
    ensures r == Success(db.nextService) <==> forall s | s in db.services :: db.services[s].uuid != uuid
    ensures r == Failed(-1) <==> exists s :: s in db.services && db.services[s].uuid == uuid
    ensures !r.Success? ==> db' == db
    ensures r.Success? ==>
              db' == db.(services := db.services[r.id := Service(uuid, owner, {}, "0.0.1", text, false)],
                         nextService := r.id + 1)
  {
  }

  // ---- starting ----

  predicate MayStart(db: Db, service: Id, user: Id) {
    && service in db.services
    && (user == db.services[service].owner || user in db.services[service].maintainers || TopLevel(db, user))
  }

  predicate HasOpen(db: Db, service: Id, user: Id) {
    exists i :: i in db.iterations && db.iterations[i].service == service && db.iterations[i].creator == user
                && !db.iterations[i].committed
  }

  /** `after` holds, in scope `n`, every API of scope `s` of `src` with all its columns and both its forests. */
  ghost predicate Holds(src: Layer, s: Id, after: Layer, n: Id) {
    exists m :: Iso(PartOf(src, s), PartOf(after, n), m) && SameColumns(src, n, after, m)
  }

  ghost predicate SameColumns(src: Layer, n: Id, after: Layer, m: Renaming) {
    forall x | x in m.api :: x in src.apis && m.api[x] in after.apis && after.apis[m.api[x]] == src.apis[x].(scope := n)
  }

  lemma CopyHolds(src: Layer, s: Id, before: Layer, scopes: set<Id>, n: Id, after: Layer, m: Renaming)
    requires LayerOk(before, scopes) && InScope(before, n) == {} && LayerCopy(src, s, before, n, after, m)
    ensures Holds(src, s, after, n)
  {
    LayerCopyIso(src, s, before, scopes, n, after, m);
    forall x | x in m.api
      ensures x in src.apis && m.api[x] in after.apis && after.apis[m.api[x]] == src.apis[x].(scope := n)
    {
      assert ApiCopiedAt(src.apis, n, after.apis, m.api, x);
    }
  }

  lemma OpenAgrees(db: Db, service: Id, user: Id)
    ensures HasOpen(db, service, user) <==> exists i :: OpenIteration(db, service, user, i)
  {
    if HasOpen(db, service, user) {
      var i :| i in db.iterations && db.iterations[i].service == service && db.iterations[i].creator == user
               && !db.iterations[i].committed;
      assert OpenIteration(db, service, user, i);
    }
  }

  lemma StartGuardAnswers(db: Db, service: Id, user: Id)
    ensures StartGuard(db, service, user).Granted? <==> MayStart(db, service, user)
    ensures StartGuard(db, service, user) == Denied(-1) <==> service !in db.services
    ensures StartGuard(db, service, user) == Denied(-2) <==>
              service in db.services && !MayStart(db, service, user) && user in db.users
    ensures StartGuard(db, service, user) == NoRow <==>
              service in db.services && !MayStart(db, service, user) && user !in db.users
  {
  }

  /** Whoever may start does: the answer is the open iteration, or a new one that holds all live APIs of the service. */
  lemma StartOutcome(db: Db, service: Id, user: Id, r: Response, db': Db)
    requires DbOk(db) && Step(db, Starting(service, user), r, db')
    ensures r == Success(db.nextIteration) <==> MayStart(db, service, user) && !HasOpen(db, service, user)
    ensures r.InProgress? <==> MayStart(db, service, user) && HasOpen(db, service, user)
    ensures r.InProgress? ==>
              Pending(db, r.id) && db.iterations[r.id].service == service && db.iterations[r.id].creator == user
    ensures r == Failed(-1) <==> service !in db.services
    ensures r == Failed(-2) <==> service in db.services && !MayStart(db, service, user) && user in db.users
    ensures r == Crashed <==> service in db.services && !MayStart(db, service, user) && user !in db.users
    ensures !r.Success? ==> db' == db
    ensures r.Success? ==>
              && db' == db.(iterations := db.iterations[r.id := Iteration(service, user, None, None, false)],
                            nextIteration := r.id + 1, draft := db'.draft)
              && Holds(db.live, service, db'.draft, r.id)
  {
    StartGuardAnswers(db, service, user);
    OpenAgrees(db, service, user);
    if MayStart(db, service, user) && !HasOpen(db, service, user) {
      var m :| Started(db, service, user, db', m);
      assert InScope(db.draft, db.nextIteration) == {};
      CopyHolds(db.live, service, db.draft, db.iterations.Keys, db.nextIteration, db'.draft, m);
    }
  }

  // ---- committing ----

  /** A commit succeeds exactly when the iteration may be edited and the version is a new one; it then publishes all
      drafts. */
  lemma CommitOutcome(db: Db, it: Id, version: string, user: Id, r: Response, db': Db)
    requires DbOk(db) && Step(db, Committing(it, version, user), r, db')
    ensures r == Done <==> Editable(db, it, user) && version != db.services[db.iterations[it].service].version
    ensures r == Failed(-1) <==> Editable(db, it, user) && version == db.services[db.iterations[it].service].version
    ensures r == GuardRecord(-10) <==> !Pending(db, it)
    ensures r == GuardRecord(-30) <==> Untrusted(db, it, user)
    ensures r == Crashed <==> Unknown(db, it, user)
    ensures r != Done ==> db' == db
    ensures r == Done ==>
              var s := db.iterations[it].service;
              && db' == db.(services := db.services[s := db.services[s].(version := version,
                                                                         description := db.iterations[it].description)],
                            iterations :=
                              db.iterations[it := db.iterations[it].(version := Some(version), committed := true)],
                            live := db'.live)
              && Holds(db.draft, it, db'.live, s)
  {
    GuardAnswers(db, it, user);
    if Editable(db, it, user) && version != db.services[db.iterations[it].service].version {
      var s := db.iterations[it].service;
      var m :| Committed(db, it, version, db', m);
      ClearedLayer(db.live, db.services.Keys, s);
      CopyHolds(db.draft, it, ClearScope(db.live, s), db.services.Keys, s, db'.live, m);
    }
  }

  /** At every point of every run a commit succeeds exactly then. */
  lemma CommitsSucceed(states: seq<Db>, events: seq<Event>, k: nat)
    requires Run(states, events) && k < |events| && events[k].action.Committing?
    ensures var db, a := states[k], events[k].action;
      events[k].response == Done <==>
        Editable(db, a.it, a.user) && a.version != db.services[db.iterations[a.it].service].version
  {
    var db, a := states[k], events[k].action;
    RunIsOk(states, events, k);
    assert StepAt(states, events, k);
    CommitOutcome(db, a.it, a.version, a.user, events[k].response, states[k + 1]);
  }

  /** At every point of every run a start succeeds exactly when the user may start. */
  lemma StartsSucceed(states: seq<Db>, events: seq<Event>, k: nat)
    requires Run(states, events) && k < |events| && events[k].action.Starting?
    ensures var a, r := events[k].action, events[k].response;
      r.Success? || r.InProgress? <==> MayStart(states[k], a.service, a.user)
  {
    var db, a := states[k], events[k].action;
    RunIsOk(states, events, k);
    assert StepAt(states, events, k);
    StartOutcome(db, a.service, a.user, events[k].response, states[k + 1]);
  }

  // ---- the description ----

  lemma DescribeOutcome(db: Db, it: Id, text: Option<string>, user: Id, r: Response, db': Db)
    requires Step(db, Describing(it, text, user), r, db')
    ensures r == Done <==> Editable(db, it, user)
    ensures RefusedAs(db, it, user, r) && (r == Crashed <==> Unknown(db, it, user))
    ensures r != Done ==> db' == db
    ensures r == Done ==> db' == db.(iterations := db.iterations[it := db.iterations[it].(description := text)])
  {
    GuardAnswers(db, it, user);
  }

  // ---- adding ----

  /** Some API of the scope has this method, as named, and the path or the name. */
  predicate Repeated(l: Layer, scope: Id, verb: string, path: string, name: string) {
    exists i :: i in l.apis && l.apis[i].scope == scope && VerbName(l.apis[i].verb) == verb
                && (l.apis[i].name == name || l.apis[i].path == path)
  }

  /** The name is taken for the method that is stored: possible only for an unknown method, which is stored as GET. */
  predicate NameTaken(db: Db, it: Id, verb: string, name: string) {
    exists i :: i in db.draft.apis && db.draft.apis[i].scope == it && db.draft.apis[i].verb == ParseVerb(verb)
                && db.draft.apis[i].name == name
  }

  /** The columns of an added draft, and the exact cause of every refusal. */
  lemma AddOutcome(db: Db, it: Id, user: Id, name: string, verb: string, path: string, text: Option<string>,
                   level: string, category: Option<Id>, r: Response, db': Db)
    requires Step(db, Adding(it, user, name, verb, path, text, level, category), r, db')
    ensures RefusedAs(db, it, user, r)
    ensures Editable(db, it, user) ==>
              var s := db.iterations[it].service;
              var repeated := Repeated(db.live, s, verb, path, name) || Repeated(db.draft, it, verb, path, name);
              var missing := category.Some? && category.value !in db.categories;
              var foreign := category.Some? && !missing && db.categories[category.value] != s;
              && (r == Failed(-1) <==> repeated)
              && (r == Failed(-2) <==> !repeated && missing)
              && (r == Failed(-3) <==> !repeated && foreign)
              && (r == Crashed <==> !repeated && !missing && !foreign && NameTaken(db, it, verb, name))
              && (r.Success? <==> !repeated && !missing && !foreign && !NameTaken(db, it, verb, name))
    ensures !Editable(db, it, user) ==> !r.Success?
    ensures !r.Success? ==> db' == db
    ensures r.Success? ==>
              && r.id == db.draft.nextApi
              && db' == db.(draft := db.draft.(nextApi := r.id + 1, apis := db.draft.apis[r.id :=
                              Api(it, user, category, name, ParseVerb(verb), path, text, ParseLevel(level), true)]))
  {
    GuardAnswers(db, it, user);
    if Editable(db, it, user) {
      var s := db.iterations[it].service;
      assert Clashes(db.live.apis, s, verb, path, name) <==> Repeated(db.live, s, verb, path, name);
      assert Clashes(db.draft.apis, it, verb, path, name) <==> Repeated(db.draft, it, verb, path, name);
      assert Taken(db.draft.apis, it, ParseVerb(verb), name) <==> NameTaken(db, it, verb, name);
    }
  }

  // ---- requests to one draft ----

  predicate Own(db: Db, it: Id, draft: Id, user: Id) {
    Editable(db, it, user) && draft in db.draft.apis && db.draft.apis[draft].scope == it
  }

  /** The answers of a request to a draft that is refused before anything is tried. */
  predicate DraftRefusedAs(db: Db, it: Id, draft: Id, user: Id, r: Response) {
    && RefusedAs(db, it, user, r)
    && (r == Failed(-1) <==> Editable(db, it, user) && draft !in db.draft.apis)
    && (r == Failed(-2) <==> Editable(db, it, user) && draft in db.draft.apis && db.draft.apis[draft].scope != it)
  }

  lemma DraftGuardAnswers(db: Db, it: Id, draft: Id, user: Id)
    ensures var g := DraftGuard(db, it, draft, user);
      && (g.Granted? <==> Own(db, it, draft, user))
      && (g == NoRow <==> Unknown(db, it, user))
      && (!g.Granted? ==> DraftRefusedAs(db, it, draft, user, Refusal(g)))
  {
    GuardAnswers(db, it, user);
  }

  /** Only the rows of `o` are gone. */
  predicate OnlyGone(t: Table, o: Id, t': Table) {
    && t'.next == t.next
    && (forall i | i in t.rows && t.rows[i].owner != o :: i in t'.rows && t'.rows[i] == t.rows[i])
    && (forall i | i in t'.rows :: i in t.rows && t'.rows[i].owner != o)
  }

  /** A deletion succeeds exactly on the iteration's own drafts, and takes away the draft, its rows and nothing else. */
  lemma DeleteOutcome(db: Db, it: Id, draft: Id, user: Id, r: Response, db': Db)
    requires Step(db, Deleting(it, draft, user), r, db')
    ensures r == Done <==> Own(db, it, draft, user)
    ensures DraftRefusedAs(db, it, draft, user, r) && (r == Crashed <==> Unknown(db, it, user))
    ensures r != Done ==> db' == db
    ensures r == Done ==>
              && db' == db.(draft := db'.draft) && db'.draft.nextApi == db.draft.nextApi
              && draft !in db'.draft.apis
              && (forall i | i in db.draft.apis && i != draft ::
                    i in db'.draft.apis && db'.draft.apis[i] == db.draft.apis[i])
              && (forall i | i in db'.draft.apis :: i in db.draft.apis)
              && OnlyGone(db.draft.req, draft, db'.draft.req) && OnlyGone(db.draft.resp, draft, db'.draft.resp)
  {
    DraftGuardAnswers(db, it, draft, user);
  }

  /** The rows of other owners are untouched; all rows of `o` are new. */
  predicate OnlyReplaced(t: Table, o: Id, t': Table) {
    && (forall i | i in t.rows && t.rows[i].owner != o :: i in t'.rows && t'.rows[i] == t.rows[i])
    && (forall i | i in t'.rows && t'.rows[i].owner != o :: i in t.rows)
    && (forall i | i in t'.rows && t'.rows[i].owner == o :: t.next <= i)
  }

  lemma RewrittenReplaces(t: Table, owners: set<Id>, o: Id, params: Forest<Input>, side: Side)
    requires TableOk(t, owners) && o in owners
    ensures OnlyReplaced(t, o, Rewritten(t, o, params, side))
  {
    var dropped := DropOwners(t, {o});
    DropKeepsOk(t, owners, {o});
    TableMoreOwners(dropped, owners - {o}, owners);
    NormalIsPruned(params, Missing, side);
    PutKeepsOk(dropped, Normal(params, Missing, side), o, None, owners);
  }

  /** Another draft of the iteration has the stored method and the name. */
  predicate OtherNameTaken(db: Db, it: Id, draft: Id, verb: string, name: string) {
    exists i :: i in db.draft.apis && i != draft && db.draft.apis[i].scope == it
                && db.draft.apis[i].verb == ParseVerb(verb) && db.draft.apis[i].name == name
  }

  /** An update succeeds exactly on the iteration's own drafts under a free name; it writes the columns given, keeps
      owner, category and switch, and replaces the draft's rows only. */
  lemma UpdateOutcome(db: Db, a: Action, r: Response, db': Db)
    requires DbOk(db) && a.Updating? && Step(db, a, r, db')
    ensures DraftRefusedAs(db, a.it, a.draft, a.user, r)
    ensures r == Done <==> Own(db, a.it, a.draft, a.user) && !OtherNameTaken(db, a.it, a.draft, a.verb, a.name)
    ensures r == Crashed <==>
              Unknown(db, a.it, a.user)
              || (Own(db, a.it, a.draft, a.user) && OtherNameTaken(db, a.it, a.draft, a.verb, a.name))
    ensures r != Done ==> db' == db
    ensures r == Done ==>
              var was := db.draft.apis[a.draft];
              && db' == db.(draft := db'.draft) && db'.draft.nextApi == db.draft.nextApi
              && db'.draft.apis
                == db.draft.apis[a.draft := Api(a.it, was.owner, was.category, a.name, ParseVerb(a.verb),
                                                                a.path, a.text, ParseLevel(a.level), was.enabled)]
              && OnlyReplaced(db.draft.req, a.draft, db'.draft.req)
                && OnlyReplaced(db.draft.resp, a.draft, db'.draft.resp)
  {
    DraftGuardAnswers(db, a.it, a.draft, a.user);
    if Own(db, a.it, a.draft, a.user) {
      var others := db.draft.apis - {a.draft};
      assert Taken(others, a.it, ParseVerb(a.verb), a.name) <==> OtherNameTaken(db, a.it, a.draft, a.verb, a.name) by {
        TakenElsewhere(db.draft.apis, a.draft, a.it, ParseVerb(a.verb), a.name);
      }
      RewrittenReplaces(db.draft.req, db.draft.apis.Keys, a.draft, a.req, Request);
      RewrittenReplaces(db.draft.resp, db.draft.apis.Keys, a.draft, a.resp, Response);
    }
  }

  lemma TakenElsewhere(apis: map<Id, Api>, x: Id, scope: Id, verb: HttpMethod, name: string)
    ensures Taken(apis - {x}, scope, verb, name) <==>
              exists i :: i in apis && i != x && apis[i].scope == scope && apis[i].verb == verb && apis[i].name == name
  {
    var others := apis - {x};
    forall i | i in apis && i != x ensures i in others && others[i] == apis[i] {
    }
  }

  /** The rows of `n` are copies of those of `o`; all rows that were there are unchanged. */
  ghost predicate CopiesRows(t: Table, o: Id, t': Table, n: Id) {
    && (forall i | i in t.rows :: i in t'.rows && t'.rows[i] == t.rows[i])
    && (forall i | i in t'.rows && i !in t.rows :: t'.rows[i].owner == n)
    && exists m :: RowsIso(RowsOwned(t, {o}), RowsOwned(t', {n}), map[o := n], m)
  }

  lemma TableCopyCopiesRows(t: Table, owners: set<Id>, o: Id, t': Table, n: Id, m: map<Id, Id>)
    requires TableOk(t, owners) && n !in owners && TableCopy(t, map[o := n], t, t', m)
    ensures CopiesRows(t, o, t', n)
  {
    OwnerCopyIso(t, o, n, t, owners, t', m);
    forall i | i in t'.rows && i !in t.rows ensures t'.rows[i].owner == n {
      var x :| x in m && m[x] == i;
      assert CopiedAt(t, map[o := n], t', m, x);
    }
  }

  predicate CopyNameTaken(db: Db, it: Id, draft: Id, suffix: string)
    requires draft in db.draft.apis
  {
    exists i :: i in db.draft.apis && db.draft.apis[i].scope == it && db.draft.apis[i].verb == db.draft.apis[draft].verb
                && db.draft.apis[i].name == db.draft.apis[draft].name + suffix
  }

  /** Duplicating succeeds exactly on the iteration's own drafts under a free suffixed name. */
  lemma CopyOutcome(db: Db, it: Id, draft: Id, user: Id, suffix: string, r: Response, db': Db)
    requires DbOk(db) && Step(db, Copying(it, draft, user, suffix), r, db')
    ensures DraftRefusedAs(db, it, draft, user, r)
    ensures r == Done <==> Own(db, it, draft, user) && !CopyNameTaken(db, it, draft, suffix)
    ensures r == Crashed <==>
      Unknown(db, it, user) || (Own(db, it, draft, user) && CopyNameTaken(db, it, draft, suffix))
    ensures r != Done ==> db' == db
    ensures r == Done ==>
              var n, was := db.draft.nextApi, db.draft.apis[draft];
              && db' == db.(draft := db'.draft) && db'.draft.nextApi == n + 1
              && db'.draft.apis == db.draft.apis[n := Api(it, user, was.category, was.name + suffix, was.verb,
                                                          was.path + suffix, was.description, was.level, was.enabled)]
              && CopiesRows(db.draft.req, draft, db'.draft.req, n)
                && CopiesRows(db.draft.resp, draft, db'.draft.resp, n)
  {
    DraftGuardAnswers(db, it, draft, user);
    if Own(db, it, draft, user) {
      var copy := Duplicate(db.draft.apis[draft], user, suffix);
      assert Taken(db.draft.apis, it, copy.verb, copy.name) <==> CopyNameTaken(db, it, draft, suffix);
      if !CopyNameTaken(db, it, draft, suffix) {
        var req, resp :| Duplicated(db, draft, user, suffix, db', req, resp);
        TableCopyCopiesRows(db.draft.req, db.draft.apis.Keys, draft, db'.draft.req, db.draft.nextApi, req);
        TableCopyCopiesRows(db.draft.resp, db.draft.apis.Keys, draft, db'.draft.resp, db.draft.nextApi, resp);
      }
    }
  }

  // ---- categories ----

  predicate MayCategorize(db: Db, api: Id, user: Id)
    requires api in db.live.apis && db.live.apis[api].scope in db.services && user in db.users
  {
    var s := db.services[db.live.apis[api].scope];
    user == s.owner || user in s.maintainers || db.users[user] == 0
  }

  /** The exact cause of every refusal of a category change, and the category that is written; -1 stands for none. */
  lemma CategorizeOutcome(db: Db, api: Id, category: int, user: Id, r: Response, db': Db)
    requires DbOk(db) && Step(db, Categorizing(api, category, user), r, db')
    ensures r == Failed(-1) <==> api !in db.live.apis
    ensures r == Failed(-2) <==> api in db.live.apis && user !in db.users
    ensures api in db.live.apis && user in db.users ==>
              var row := db.live.apis[api];
              var same := row.category.Some? && row.category.value == category;
              var known := category >= 0 && category in db.categories;
              var may := MayCategorize(db, api, user);
              && (r == Failed(-3) <==> !may)
              && (r == Failed(-4) <==> may && same)
              && (r == Failed(-5) <==> may && !same && category != -1 && !known)
              && (r == Failed(-6) <==> may && !same && known && db.categories[category] != row.scope)
              && (r == Done <==> may && !same && (category == -1 || (known && db.categories[category] == row.scope)))
    ensures r == Done ==> api in db.live.apis && user in db.users
    ensures r != Done ==> db' == db
    ensures r == Done ==>
              var moved := if category == -1 then None else Some(category);
              db' == db.(live := db.live.(apis := db.live.apis[api := db.live.apis[api].(category := moved)]))
  {
  }

  // ---- looking a version up ----

  /** What a lookup finds for a service that is not deleted, and what is answered to a user who may not see it. */
  lemma LookupOutcome(db: Db, uuid: string, version: string, user: Id, found: Found, s: Id)
    requires FrameOk(db) && Locates(db, uuid, version, found)
    requires s in db.services && db.services[s].uuid == uuid && !db.services[s].deleted
    ensures found == Latest(s) <==> version == db.services[s].version || version == "latest"
    ensures found == NoVersion(s) <==>
              version != db.services[s].version && version != "latest"
              && forall i | i in db.iterations && db.iterations[i].service == s ::
                db.iterations[i].version != Some(version)
    ensures found != Latest(s) && found != NoVersion(s) ==>
              found.Past? && found.service == s && found.iteration in db.iterations
              && db.iterations[found.iteration].service == s && db.iterations[found.iteration].version == Some(version)
    ensures var v := ViewGuard(db, found, user);
      var outside := user != db.services[s].owner && user !in db.services[s].maintainers;
      var low := user in db.users && db.users[user] != 0;
      && (v == Denied(-2) <==> found == NoVersion(s))
      && (v == Denied(-3) <==> found == Latest(s) && outside && low)
      && (v == Denied(-4) <==> found.Past? && outside && low && db.iterations[found.iteration].creator != user)
      && (v == NoRow <==> !found.NoVersion? && outside && user !in db.users)
  {
    assert !found.NoService?;
    assert UuidAt(db.services, found.service, s);
  }

  /** Nothing is found, with status -1, exactly when no service that is not deleted has the name. */
  lemma LookupMisses(db: Db, uuid: string, version: string, user: Id, found: Found)
    requires Locates(db, uuid, version, found)
    ensures found == NoService <==> forall s | s in db.services && db.services[s].uuid == uuid :: db.services[s].deleted
    ensures ViewGuard(db, found, user) == Denied(-1) <==> found == NoService
  {
  }

  // ---- a deleted draft is gone for good ----

  lemma CopiedKeys(src: Layer, s: Id, before: Layer, n: Id, after: Layer, m: Renaming)
    requires LayerCopy(src, s, before, n, after, m)
    ensures before.nextApi <= after.nextApi && forall i | i in after.apis && i !in before.apis :: before.nextApi <= i
  {
    forall i | i in after.apis && i !in before.apis ensures before.nextApi <= i {
      var x :| x in m.api && m.api[x] == i;
    }
  }

  lemma StartKeys(db: Db, a: Action, r: Response, db': Db)
    requires a.Starting? && Step(db, a, r, db')
    ensures db.draft.nextApi <= db'.draft.nextApi
    ensures forall i | i in db'.draft.apis && i !in db.draft.apis :: db.draft.nextApi <= i
  {
    if db' != db {
      var m :| Started(db, a.service, a.user, db', m);
      CopiedKeys(db.live, a.service, db.draft, db.nextIteration, db'.draft, m);
    }
  }

  lemma OtherKeys(db: Db, a: Action, r: Response, db': Db)
    requires !a.Starting? && !a.Committing? && Step(db, a, r, db')
    ensures db.draft.nextApi <= db'.draft.nextApi
    ensures forall i | i in db'.draft.apis && i !in db.draft.apis :: db.draft.nextApi <= i
  {
    if a.Updating? && db' != db {
      assert db'.draft.apis.Keys == db.draft.apis.Keys;
    }
  }

  /** Keys of drafts are never used twice. */
  lemma DraftKeys(db: Db, a: Action, r: Response, db': Db)
    requires Step(db, a, r, db')
    ensures db.draft.nextApi <= db'.draft.nextApi
    ensures forall i | i in db'.draft.apis && i !in db.draft.apis :: db.draft.nextApi <= i
  {
    if a.Starting? {
      StartKeys(db, a, r, db');
    } else if a.Committing? {
      if db' != db {
        var m :| Committed(db, a.it, a.version, db', m);
      }
    } else {
      OtherKeys(db, a, r, db');
    }
  }

  lemma GoneNext(states: seq<Db>, events: seq<Event>, k: nat, draft: Id)
    requires Run(states, events) && k < |events|
    requires draft !in states[k].draft.apis && draft < states[k].draft.nextApi
    ensures draft !in states[k + 1].draft.apis && draft < states[k + 1].draft.nextApi
  {
    assert StepAt(states, events, k);
    DraftKeys(states[k], events[k].action, events[k].response, states[k + 1]);
  }

  lemma DeletedNow(states: seq<Db>, events: seq<Event>, i: nat)
    requires Run(states, events) && i < |events| && events[i].action.Deleting? && events[i].response == Done
    ensures events[i].action.draft !in states[i + 1].draft.apis
    ensures events[i].action.draft < states[i + 1].draft.nextApi
  {
    var a := events[i].action;
    RunIsOk(states, events, i);
    assert StepAt(states, events, i);
    DeleteOutcome(states[i], a.it, a.draft, a.user, Done, states[i + 1]);
  }

  /** A deleted draft never comes back. */
  lemma {:induction false} DeletedStaysGone(states: seq<Db>, events: seq<Event>, i: nat, n: nat)
    requires Run(states, events) && i < n < |states| && events[i].action.Deleting? && events[i].response == Done
    ensures events[i].action.draft !in states[n].draft.apis && events[i].action.draft < states[n].draft.nextApi
    decreases n
  {
    if n == i + 1 {
      DeletedNow(states, events, i);
    } else {
      DeletedStaysGone(states, events, i, n - 1);
      GoneNext(states, events, n - 1, events[i].action.draft);
    }
  }

  /** What a later commit publishes are the drafts without the deleted one. */
  lemma DeletedIsNotPublished(states: seq<Db>, events: seq<Event>, i: nat, j: nat)
    requires Run(states, events) && i < j < |events| && events[i].action.Deleting? && events[i].response == Done
    requires events[j].action.Committing? && events[j].response == Done
    ensures var db, it := states[j], events[j].action.it;
      && Editable(db, it, events[j].action.user)
      && Holds(db.draft, it, states[j + 1].live, db.iterations[it].service)
      && events[i].action.draft !in PartOf(db.draft, it).apis
  {
    var db, a := states[j], events[j].action;
    DeletedStaysGone(states, events, i, j);
    RunIsOk(states, events, j);
    assert StepAt(states, events, j);
    CommitOutcome(db, a.it, a.version, a.user, Done, states[j + 1]);
  }
}
