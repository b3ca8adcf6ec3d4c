/** Methods and paths along whole runs: what every request does to their distinctness, and two runs that lose it. */
module PathRuns {
  import opened Model
  import opened Forests
  import opened Tables
  import opened Catalog
  import opened Actions
  import opened Frames
  import opened Runs
  import opened Paths
  import IdleRuns

  /** Methods and paths are distinct within every iteration and among the live APIs of every service. */
  ghost predicate PathsOk(db: Db) {
    && (forall it | it in db.iterations :: PathsApart(db.draft.apis, it))
    && (forall s | s in db.services :: PathsApart(db.live.apis, s))
  }

  predicate Edits(a: Action) {
    a.Adding? || a.Copying? || a.Updating?
  }

  /** The method and path that the request stores are free in its iteration. */
  predicate PathSafe(db: Db, a: Action)
    requires Edits(a)
  {
    match a
    case Adding(it, _, _, verb, path, _, _, _) =>
      VerbName(ParseVerb(verb)) == verb || !PathTaken(db.draft.apis, it, GET, path)
    case Copying(it, draft, _, suffix) =>
      draft in db.draft.apis ==>
        !PathTaken(db.draft.apis, it, db.draft.apis[draft].verb, db.draft.apis[draft].path + suffix)
    case Updating(it, draft, _, _, verb, path, _, _, _, _) =>
      !PathTaken(db.draft.apis - {draft}, it, ParseVerb(verb), path)
  }

  /** The request is refused, edits nothing, or stores a free method and path. */
  predicate Safe(db: Db, a: Action, r: Response) {
    Edits(a) && (r.Done? || r.Success?) ==> PathSafe(db, a)
  }

  lemma SamePartSamePaths(l: Layer, l': Layer, s: Id)
    requires ApisOfScope(l.apis, s) == ApisOfScope(l'.apis, s)
    ensures PathsApart(l.apis, s) <==> PathsApart(l'.apis, s)
  {
    var a := ApisOfScope(l.apis, s);
    forall i ensures i in a <==> i in l.apis && l.apis[i].scope == s {
    }
    forall i ensures i in a <==> i in l'.apis && l'.apis[i].scope == s {
    }
    assert forall i | i in a :: a[i] == l.apis[i] && a[i] == l'.apis[i];
  }

  // ---- live APIs ----

  lemma NewServiceHasNoApis(db: Db, a: Action, r: Response, db': Db, s: Id)
    requires DbOk(db) && Step(db, a, r, db') && s in db'.services && s !in db.services
    ensures PathsApart(db'.live.apis, s)
  {
    ServiceKeys(db, a, r, db');
    assert db'.live == db.live;
    forall i | i in db.live.apis ensures db.live.apis[i].scope != s {
      assert db.live.apis[i].scope in db.services;
    }
  }

  lemma LivePathsKept(db: Db, a: Action, r: Response, db': Db, s: Id)
    requires DbOk(db) && PathsOk(db) && Step(db, a, r, db') && s in db'.services
    ensures PathsApart(db'.live.apis, s)
  {
    if s !in db.services {
      NewServiceHasNoApis(db, a, r, db', s);
    } else if KeepsLive(db, a, r, s) {
      LiveKept(db, a, r, db', s);
      IsoKeepsPaths(db.live, s, db'.live, s);
    } else {
      PublishReplaces(db, a, r, db', s, a.it);
      SamePartSamePaths(db'.draft, db.draft, a.it);
      IsoKeepsPaths(db'.draft, a.it, db'.live, s);
    }
  }

  // ---- drafts ----

  lemma StartIterations(db: Db, service: Id, user: Id, r: Response, db': Db)
    requires StartIteration(db, service, user, r, db') && db' != db
    ensures r == Success(db.nextIteration) && db'.iterations.Keys == db.iterations.Keys + {db.nextIteration}
    ensures db'.services == db.services && service in db.services
  {
    var m :| Started(db, service, user, db', m);
  }

  lemma StartedPaths(db: Db, a: Action, r: Response, db': Db, it: Id)
    requires DbOk(db) && PathsOk(db) && a.Starting? && Step(db, a, r, db') && it in db'.iterations
      && it !in db.iterations
    ensures PathsApart(db'.draft.apis, it)
  {
    StartIterations(db, a.service, a.user, r, db');
    OpenedCopy(db, a, db', it);
    IsoKeepsPaths(db.live, a.service, db'.draft, it);
  }

  lemma OldIterations(db: Db, a: Action, r: Response, db': Db)
    requires Step(db, a, r, db') && !a.Starting?
    ensures db'.iterations.Keys == db.iterations.Keys
  {
    if a.Committing? && db' != db {
      var m :| Committed(db, a.it, a.version, db', m);
    }
  }

  lemma QuietDrafts(db: Db, a: Action, r: Response, db': Db)
    requires Step(db, a, r, db') && (a.Committing? || a.Describing?)
    ensures db'.draft == db.draft
  {
    if a.Committing? && db' != db {
      var m :| Committed(db, a.it, a.version, db', m);
    }
  }

  lemma DeletedPaths(db: Db, a: Action, r: Response, db': Db, it: Id)
    requires a.Deleting? && Step(db, a, r, db') && PathsApart(db.draft.apis, it)
    ensures PathsApart(db'.draft.apis, it)
  {
    assert forall i | i in db'.draft.apis :: i in db.draft.apis && db'.draft.apis[i] == db.draft.apis[i];
  }

  lemma OtherDraftPaths(db: Db, a: Action, r: Response, db': Db, it: Id)
    requires DbOk(db) && PathsOk(db) && Step(db, a, r, db') && it in db'.iterations
    requires Edits(a) ==> a.it != it
    ensures PathsApart(db'.draft.apis, it)
  {
    if it !in db.iterations {
      if !a.Starting? {
        OldIterations(db, a, r, db');
      }
      StartedPaths(db, a, r, db', it);
    } else if Target(a) != Some(it) {
      OthersLeaveDrafts(db, a, r, db', it);
      SamePartSamePaths(db.draft, db'.draft, it);
    } else if a.Deleting? {
      DeletedPaths(db, a, r, db', it);
    } else {
      QuietDrafts(db, a, r, db');
    }
  }

  // ---- every request ----

  lemma RefusedEdit(db: Db, a: Action, r: Response, db': Db)
    requires Step(db, a, r, db') && Edits(a) && !r.Done? && !r.Success?
    ensures db' == db
  {
  }

  lemma EditedPathsIff(db: Db, a: Action, r: Response, db': Db)
    requires DbOk(db) && Step(db, a, r, db') && Edits(a) && (r.Done? || r.Success?) && PathsApart(db.draft.apis, a.it)
    ensures PathsApart(db'.draft.apis, a.it) <==> PathSafe(db, a)
    ensures a.it in db'.iterations
  {
    EditsKeepFrame(db, a, r, db');
    if a.Adding? {
      AddKeepsPathsIff(db, a, r.id, db');
    } else if a.Copying? {
      CopyKeepsPathsIff(db, a, db');
    } else {
      UpdateKeepsPathsIff(db, a, db');
    }
  }

  /** A request keeps methods and paths distinct, in all iterations and live services, exactly when it is safe. */
  lemma StepKeepsPathsIff(db: Db, a: Action, r: Response, db': Db)
    requires DbOk(db) && PathsOk(db) && Step(db, a, r, db')
    ensures PathsOk(db') <==> Safe(db, a, r)
  {
    forall s | s in db'.services ensures PathsApart(db'.live.apis, s) {
      LivePathsKept(db, a, r, db', s);
    }
    forall it | it in db'.iterations && (Edits(a) ==> a.it != it) ensures PathsApart(db'.draft.apis, it) {
      OtherDraftPaths(db, a, r, db', it);
    }
    if Edits(a) {
      if r.Done? || r.Success? {
        EditingGranted(db, a, r, db');
        EditedPathsIff(db, a, r, db');
      } else {
        RefusedEdit(db, a, r, db');
      }
    }
  }

  lemma EditingGranted(db: Db, a: Action, r: Response, db': Db)
    requires Step(db, a, r, db') && Edits(a) && (r.Done? || r.Success?)
    ensures Guard(db, a.it, a.user).Granted?
  {
  }

  lemma FreshPathsOk(db: Db)
    requires Fresh(db)
    ensures PathsOk(db)
  {
  }

  ghost predicate SafeAt(states: seq<Db>, events: seq<Event>, k: nat)
    requires |states| == |events| + 1
  {
    k < |events| ==> Safe(states[k], events[k].action, events[k].response)
  }

  lemma PathsNextIff(states: seq<Db>, events: seq<Event>, k: nat)
    requires Run(states, events) && k < |events| && PathsOk(states[k])
    ensures PathsOk(states[k + 1]) <==> SafeAt(states, events, k)
  {
    RunIsOk(states, events, k);
    assert StepAt(states, events, k);
    StepKeepsPathsIff(states[k], events[k].action, events[k].response, states[k + 1]);
  }

  /** Methods and paths are distinct at every point of a run exactly when every request of the run is safe. */
  lemma {:induction false} PathsApartIff(states: seq<Db>, events: seq<Event>, n: nat)
    requires Run(states, events) && n < |states|
    ensures (forall m: nat | m <= n :: PathsOk(states[m])) <==> (forall k: nat | k < n :: SafeAt(states, events, k))
  {
    if n == 0 {
      FreshPathsOk(states[0]);
    } else {
      PathsApartIff(states, events, n - 1);
      if forall m: nat | m < n :: PathsOk(states[m]) {
        assert PathsOk(states[n - 1]);
        PathsNextIff(states, events, n - 1);
      } else {
        assert !(forall m: nat | m <= n - 1 :: PathsOk(states[m]));
      }
    }
  }

  // ---- two runs that lose it ----

  function Listing(name: string, path: string): Api {
    Api(1, 1, None, name, GET, path, None, P2, true)
  }

  function Drafts(apis: map<Id, Api>, next: Id): Db {
    Db(map[1 := 0], map[], map[1 := Service("s", 1, {}, "0.0.1", None, false)], 2,
       map[1 := Iteration(1, 1, None, None, false)], 2, EMPTY_LAYER,
       Layer(apis, next, Table(map[], 1), Table(map[], 1)))
  }

  lemma Opening() returns (states: seq<Db>, events: seq<Event>)
    ensures Run(states, events) && states[|events|] == Drafts(map[], 1)
  {
    var db0 := Db(map[1 := 0], map[], map[], 1, map[], 1, EMPTY_LAYER, EMPTY_LAYER);
    var db1 := CreateService(db0, "s", 1, None).db;
    var create, start := Event(CreatingService("s", 1, None), Success(1)), Event(Starting(1, 1), Success(1));
    states, events := [db0], [];
    RunExtends(states, events, create, db1);
    states, events := states + [db1], events + [create];
    IdleRuns.NothingToCopy(1, 1);
    assert Started(db1, 1, 1, Drafts(map[], 1), Renaming(map[], map[], map[]));
    RunExtends(states, events, start, Drafts(map[], 1));
    states, events := states + [Drafts(map[], 1)], events + [start];
  }

  lemma Adds(apis: map<Id, Api>, n: Id, next: Id, name: string, path: string)
    requires n !in apis && next == n + 1 && forall i | i in apis :: apis[i].name != name && apis[i].path != path
    ensures Step(Drafts(apis, n), Adding(1, 1, name, "GET", path, None, "P2", None), Success(n),
                 Drafts(apis[n := Listing(name, path)], next))
  {
  }

  /** A reachable database: one service, one open iteration with two drafts. */
  lemma TwoDrafts() returns (states: seq<Db>, events: seq<Event>)
    ensures Run(states, events)
    ensures states[|events|] == Drafts(map[1 := Listing("list", "/items"), 2 := Listing("count", "/count")], 3)
  {
    states, events := Opening();
    var one := map[1 := Listing("list", "/items")];
    var two := one[2 := Listing("count", "/count")];
    var add1 := Event(Adding(1, 1, "list", "GET", "/items", None, "P2", None), Success(1));
    var add2 := Event(Adding(1, 1, "count", "GET", "/count", None, "P2", None), Success(2));
    Adds(map[], 1, 2, "list", "/items");
    RunExtends(states, events, add1, Drafts(one, 2));
    states, events := states + [Drafts(one, 2)], events + [add1];
    Adds(one, 2, 3, "count", "/count");
    RunExtends(states, events, add2, Drafts(two, 3));
    states, events := states + [Drafts(two, 3)], events + [add2];
    assert two == map[1 := Listing("list", "/items"), 2 := Listing("count", "/count")];
  }

  lemma SamePathTwice(apis: map<Id, Api>, i: Id, j: Id)
    requires i in apis && j in apis && i != j && apis[i].scope == apis[j].scope == 1
    requires apis[i].verb == apis[j].verb && apis[i].path == apis[j].path
    ensures !PathsApart(apis, 1)
  {
  }

  /** A run that ends with an update after which two drafts have the same method and path. */
  lemma UpdateMayRepeatPath() returns (states: seq<Db>, events: seq<Event>)
    ensures Run(states, events) && events != []
    ensures var last := events[|events| - 1]; last.action.Updating? && last.response == Done
    ensures 1 in states[|events|].iterations && !PathsApart(states[|events|].draft.apis, 1)
  {
    states, events := TwoDrafts();
    var apis := map[1 := Listing("list", "/items"), 2 := Listing("count", "/count")];
    var apis' := apis[2 := Listing("total", "/items")];
    var update := Event(Updating(1, 2, 1, "total", "GET", "/items", None, "P2", Empty, Empty), Done);
    Repeats(apis, apis');
    RunExtends(states, events, update, Drafts(apis', 3));
    states, events := states + [Drafts(apis', 3)], events + [update];
    SamePathTwice(apis', 1, 2);
  }

  lemma Repeats(apis: map<Id, Api>, apis': map<Id, Api>)
    requires apis == map[1 := Listing("list", "/items"), 2 := Listing("count", "/count")]
    requires apis' == apis[2 := Listing("total", "/items")]
    ensures Step(Drafts(apis, 3), Updating(1, 2, 1, "total", "GET", "/items", None, "P2", Empty, Empty), Done,
      Drafts(apis', 3))
  {
    assert DropOwners(Table(map[], 1), {2}) == Table(map[], 1);
  }

  /** A run that ends with an addition under an unknown method after which two drafts have the same method and path. */
  lemma AddMayRepeatPath() returns (states: seq<Db>, events: seq<Event>)
    ensures Run(states, events) && events != []
    ensures var last := events[|events| - 1]; last.action.Adding? && last.response.Success?
    ensures 1 in states[|events|].iterations && !PathsApart(states[|events|].draft.apis, 1)
  {
    states, events := TwoDrafts();
    var apis := map[1 := Listing("list", "/items"), 2 := Listing("count", "/count")];
    var apis' := apis[3 := Listing("total", "/items")];
    var add := Event(Adding(1, 1, "total", "HEAD", "/items", None, "P2", None), Success(3));
    AddsUnknown(apis, apis');
    RunExtends(states, events, add, Drafts(apis', 4));
    states, events := states + [Drafts(apis', 4)], events + [add];
    SamePathTwice(apis', 1, 3);
  }

  lemma AddsUnknown(apis: map<Id, Api>, apis': map<Id, Api>)
    requires apis == map[1 := Listing("list", "/items"), 2 := Listing("count", "/count")]
    requires apis' == apis[3 := Listing("total", "/items")]
    ensures Step(Drafts(apis, 3), Adding(1, 1, "total", "HEAD", "/items", None, "P2", None), Success(3),
      Drafts(apis', 4))
  {
    assert forall i | i in apis :: VerbName(apis[i].verb) == "GET";
    assert ParseVerb("HEAD") == GET;
  }
}
