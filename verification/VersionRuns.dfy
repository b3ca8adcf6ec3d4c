/** The versions of one service along whole runs in which its publications passed the form's check. */
module VersionRuns {
  import opened Model
  import opened Catalog
  import opened Actions
  import opened Frames
  import opened Runs
  import opened Versions

  /** The first version of every service is 0.0.1. */
  const FIRST := (0, 0, 1)

  /** `value` passed the form after `current` and is not the same three numbers spelled otherwise. */
  predicate Advances(current: string, value: string) {
    FormPasses(current, value) && (IsVersion(current) ==> Triple(value) != Triple(current))
  }

  lemma AdvancesIsGreater(current: string, value: string)
    requires IsVersion(current) && Advances(current, value)
    ensures Before(Triple(current), Triple(value))
  {
    AcceptedIsGreaterIff(current, value);
  }

  // ---- what holds of the versions of a service ----

  /** A closed iteration has a version after the first and not after the service's; an open one has none. */
  ghost predicate IterationOk(db: Db, s: Id, i: Id) {
    i in db.iterations && db.iterations[i].service == s ==>
      && s in db.services && IsVersion(db.services[s].version)
      && (db.iterations[i].committed <==> db.iterations[i].version.Some?)
      && (db.iterations[i].version.Some? ==>
            && IsVersion(db.iterations[i].version.value)
            && Before(FIRST, Triple(db.iterations[i].version.value))
            && !Before(Triple(db.services[s].version), Triple(db.iterations[i].version.value)))
  }

  /** The same version up to spelling. */
  predicate SameVersion(v: Option<string>, w: Option<string>) {
    v.Some? && w.Some? && IsVersion(v.value) && IsVersion(w.value) && Triple(v.value) == Triple(w.value)
  }

  ghost predicate DistinctAt(db: Db, s: Id, i: Id, j: Id) {
    i in db.iterations && j in db.iterations && i != j && db.iterations[i].service == s
      && db.iterations[j].service == s ==>
      !SameVersion(db.iterations[i].version, db.iterations[j].version)
  }

  ghost predicate VersionsOk(db: Db, s: Id) {
    && (s in db.services ==> IsVersion(db.services[s].version) && !Before(Triple(db.services[s].version), FIRST))
    && (forall i {:trigger IterationOk(db, s, i)} :: IterationOk(db, s, i))
    && (forall i, j {:trigger DistinctAt(db, s, i, j)} :: DistinctAt(db, s, i, j))
  }

  // ---- requests that do not publish to the service ----

  /** An iteration of `s` afterwards is one with the same version before, or a new open one. */
  ghost predicate SameVersionAt(db: Db, db': Db, s: Id, i: Id) {
    i in db'.iterations && db'.iterations[i].service == s ==>
      || (i in db.iterations && db.iterations[i].service == s && db'.iterations[i].version == db.iterations[i].version
          && db'.iterations[i].committed == db.iterations[i].committed)
      || (s in db.services && db'.iterations[i].version.None? && !db'.iterations[i].committed)
  }

  ghost predicate SameVersions(db: Db, db': Db, s: Id) {
    && (s in db.services ==> s in db'.services && db'.services[s].version == db.services[s].version)
    && (s in db'.services && s !in db.services ==> db'.services[s].version == "0.0.1")
    && (forall i {:trigger SameVersionAt(db, db', s, i)} :: SameVersionAt(db, db', s, i))
  }

  lemma FirstVersion()
    ensures IsVersion("0.0.1") && Triple("0.0.1") == FIRST
  {
    InitialVersionIsCanonical();
    SplitThree("0", "0", "1");
    assert "0" + "." + "0" + "." + "1" == "0.0.1";
    assert "0"[..0] == "" && "1"[..0] == "";
  }

  lemma SameVersionsOk(db: Db, db': Db, s: Id)
    requires VersionsOk(db, s) && SameVersions(db, db', s)
    ensures VersionsOk(db', s)
  {
    FirstVersion();
    forall i ensures IterationOk(db', s, i) {
      assert SameVersionAt(db, db', s, i) && IterationOk(db, s, i);
    }
    forall i, j ensures DistinctAt(db', s, i, j) {
      assert SameVersionAt(db, db', s, i) && SameVersionAt(db, db', s, j) && DistinctAt(db, s, i, j);
    }
  }

  lemma StartKeepsVersions(db: Db, service: Id, user: Id, r: Response, db': Db, s: Id)
    requires StartIteration(db, service, user, r, db')
    ensures SameVersions(db, db', s)
  {
    if db' != db {
      var m :| Started(db, service, user, db', m);
      forall i ensures SameVersionAt(db, db', s, i) {
      }
    }
  }

  lemma CommitElsewhereKeepsVersions(db: Db, a: Action, r: Response, db': Db, s: Id)
    requires a.Committing? && CommitIteration(db, a.it, a.version, a.user, r, db') && KeepsLive(db, a, r, s)
    ensures SameVersions(db, db', s)
  {
    if db' != db {
      var m :| Committed(db, a.it, a.version, db', m);
      assert db.iterations[a.it].service != s;
      forall i ensures SameVersionAt(db, db', s, i) {
      }
    }
  }

  lemma NewServiceVersions(db: Db, a: Action, r: Response, db': Db, s: Id)
    requires FrameOk(db) && a.CreatingService? && Step(db, a, r, db')
    ensures SameVersions(db, db', s)
  {
    forall i ensures SameVersionAt(db, db', s, i) {
    }
  }

  lemma DescribingKeepsVersions(db: Db, a: Action, r: Response, db': Db, s: Id)
    requires a.Describing? && Step(db, a, r, db')
    ensures SameVersions(db, db', s)
  {
    forall i ensures SameVersionAt(db, db', s, i) {
    }
  }

  lemma OtherKeepsVersions(db: Db, a: Action, r: Response, db': Db, s: Id)
    requires a.Other? && Step(db, a, r, db')
    ensures SameVersions(db, db', s)
  {
    forall i ensures SameVersionAt(db, db', s, i) {
    }
  }

  /** Unless a request publishes to the service, it changes none of its versions. */
  lemma VersionsKept(db: Db, a: Action, r: Response, db': Db, s: Id)
    requires DbOk(db) && Step(db, a, r, db') && KeepsLive(db, a, r, s)
    ensures SameVersions(db, db', s)
  {
    match a
    case Starting(service, user) => StartKeepsVersions(db, service, user, r, db', s);
    case Committing(_, _, _) => CommitElsewhereKeepsVersions(db, a, r, db', s);
    case CreatingService(_, _, _) => NewServiceVersions(db, a, r, db', s);
    case Describing(_, _, _) => DescribingKeepsVersions(db, a, r, db', s);
    case Other => OtherKeepsVersions(db, a, r, db', s);
    case _ =>
      EditsKeepFrame(db, a, r, db');
      forall i ensures SameVersionAt(db, db', s, i) {
      }
  }

  // ---- publications to the service ----

  /** If the request publishes to `s`, its version advances the service's version at that time. */
  predicate Checked(db: Db, a: Action, r: Response, s: Id) {
    a.Committing? && Publishes(db, a, r, s, a.it) && s in db.services ==> Advances(db.services[s].version, a.version)
  }

  /** The version columns after publishing `version` from `it`. */
  ghost predicate Published(db: Db, it: Id, version: string, db': Db, s: Id) {
    && it in db.iterations && db.iterations[it].service == s && s in db.services
    && s in db'.services && db'.services[s].version == version
    && db'.iterations == db.iterations[it := db.iterations[it].(version := Some(version), committed := true)]
  }

  lemma PublishedVersion(db: Db, a: Action, r: Response, db': Db, s: Id)
    requires DbOk(db) && Step(db, a, r, db') && a.Committing? && Publishes(db, a, r, s, a.it)
    ensures Published(db, a.it, a.version, db', s)
    ensures a.version != db.services[s].version
  {
    var m :| Committed(db, a.it, a.version, db', m);
  }

  lemma IterationAfterPublish(db: Db, it: Id, version: string, db': Db, s: Id, i: Id)
    requires VersionsOk(db, s) && Published(db, it, version, db', s) && Advances(db.services[s].version, version)
    ensures IterationOk(db', s, i)
    ensures i != it ==> DistinctAt(db', s, i, it) && DistinctAt(db', s, it, i)
  {
    AdvancesIsGreater(db.services[s].version, version);
    assert IterationOk(db, s, i);
  }

  lemma PublishedOk(db: Db, it: Id, version: string, db': Db, s: Id)
    requires VersionsOk(db, s) && Published(db, it, version, db', s) && Advances(db.services[s].version, version)
    ensures VersionsOk(db', s)
    ensures Before(Triple(db.services[s].version), Triple(version))
  {
    AdvancesIsGreater(db.services[s].version, version);
    forall i ensures IterationOk(db', s, i) {
      IterationAfterPublish(db, it, version, db', s, i);
    }
    forall i, j ensures DistinctAt(db', s, i, j) {
      assert DistinctAt(db, s, i, j);
      IterationAfterPublish(db, it, version, db', s, i);
      IterationAfterPublish(db, it, version, db', s, j);
    }
  }

  lemma StepVersionsOk(db: Db, a: Action, r: Response, db': Db, s: Id)
    requires DbOk(db) && VersionsOk(db, s) && Step(db, a, r, db') && Checked(db, a, r, s)
    ensures VersionsOk(db', s)
    ensures s in db.services ==>
              s in db'.services &&
              if KeepsLive(db, a, r, s) then db'.services[s].version == db.services[s].version
              else Before(Triple(db.services[s].version), Triple(db'.services[s].version))
  {
    if KeepsLive(db, a, r, s) {
      VersionsKept(db, a, r, db', s);
      SameVersionsOk(db, db', s);
    } else {
      PublishedVersion(db, a, r, db', s);
      PublishedOk(db, a.it, a.version, db', s);
    }
  }

  // ---- runs ----

  /** Every publication to `s` passed the form against the service's version at that time, and did not just respell
      it. */
  ghost predicate CheckedRun(states: seq<Db>, events: seq<Event>, s: Id) {
    && Run(states, events)
    && forall k: nat | k < |events| :: Checked(states[k], events[k].action, events[k].response, s)
  }

  lemma FreshVersionsOk(db: Db, s: Id)
    requires Fresh(db)
    ensures VersionsOk(db, s)
  {
  }

  /** The versions of a service's closed iterations are pairwise distinct up to spelling, after the first version, and
      none is after the service's own. */
  lemma {:induction false} VersionsStayOk(states: seq<Db>, events: seq<Event>, n: nat, s: Id)
    requires CheckedRun(states, events, s) && n < |states|
    ensures VersionsOk(states[n], s)
  {
    if n == 0 {
      FreshVersionsOk(states[0], s);
    } else {
      VersionsStayOk(states, events, n - 1, s);
      VersionMovesForward(states, events, n - 1, s);
    }
  }

  /** A service's version never goes back, and every publication moves it strictly forward. */
  lemma VersionMovesForward(states: seq<Db>, events: seq<Event>, k: nat, s: Id)
    requires CheckedRun(states, events, s) && k < |events| && VersionsOk(states[k], s)
    ensures VersionsOk(states[k + 1], s)
    ensures s in states[k].services ==>
              s in states[k + 1].services &&
              if KeepsLive(states[k], events[k].action, events[k].response, s)
              then states[k + 1].services[s].version == states[k].services[s].version
              else Before(Triple(states[k].services[s].version), Triple(states[k + 1].services[s].version))
  {
    RunIsOk(states, events, k);
    assert StepAt(states, events, k);
    StepVersionsOk(states[k], events[k].action, events[k].response, states[k + 1], s);
  }

  /** No event from `i` up to `j` publishes to `s`. */
  ghost predicate Quiet(states: seq<Db>, events: seq<Event>, i: nat, j: nat, s: Id)
    requires |states| == |events| + 1 && j <= |events|
  {
    forall k: nat | i <= k < j :: KeepsLive(states[k], events[k].action, events[k].response, s)
  }

  lemma QuietNext(states: seq<Db>, events: seq<Event>, i: nat, j: nat, s: Id)
    requires |states| == |events| + 1 && i < j <= |events|
    ensures Quiet(states, events, i, j, s) <==>
              Quiet(states, events, i, j - 1, s)
                && KeepsLive(states[j - 1], events[j - 1].action, events[j - 1].response, s)
  {
  }

  lemma BeforeOnwards(a: string, b: string, c: string)
    requires IsVersion(a) && IsVersion(b) && IsVersion(c)
    requires (a == b || Before(Triple(a), Triple(b))) && (b == c || Before(Triple(b), Triple(c)))
    ensures a == b == c || Before(Triple(a), Triple(c))
  {
  }

  /** Between any two points of a run a service's version is the same if nothing was published to it, and strictly
      greater otherwise. */
  lemma {:induction false} VersionsIncrease(states: seq<Db>, events: seq<Event>, i: nat, j: nat, s: Id)
    requires CheckedRun(states, events, s) && i <= j < |states| && s in states[i].services
    ensures s in states[j].services && VersionsOk(states[i], s) && VersionsOk(states[j], s)
    ensures if Quiet(states, events, i, j, s) then states[j].services[s].version == states[i].services[s].version
            else Before(Triple(states[i].services[s].version), Triple(states[j].services[s].version))
    decreases j
  {
    if i < j {
      VersionsIncrease(states, events, i, j - 1, s);
      VersionMovesForward(states, events, j - 1, s);
      QuietNext(states, events, i, j, s);
      BeforeOnwards(states[i].services[s].version, states[j - 1].services[s].version, states[j].services[s].version);
    } else {
      VersionsStayOk(states, events, i, s);
    }
  }

  /** The version a service starts with has no iteration, so once anything is published it cannot be looked up any
      more. */
  lemma FirstVersionIsLost(states: seq<Db>, events: seq<Event>, n: nat, s: Id)
    requires CheckedRun(states, events, s) && n < |states| && s in states[n].services
    ensures forall i | i in states[n].iterations && states[n].iterations[i].service == s ::
              states[n].iterations[i].version != Some("0.0.1")
    ensures LastCommit(states, events, n, s).Some? ==> states[n].services[s].version != "0.0.1"
    ensures LastCommit(states, events, n, s).None? ==> states[n].services[s].version == "0.0.1"
  {
    VersionsStayOk(states, events, n, s);
    FirstVersion();
    LiveMatchesLastCommit(states, events, n, s);
    forall i | i in states[n].iterations && states[n].iterations[i].service == s
      ensures states[n].iterations[i].version != Some("0.0.1")
    {
      assert IterationOk(states[n], s, i);
    }
  }

  lemma UniqueVersion(db: Db, s: Id, version: string, i: Id, j: Id)
    requires VersionsOk(db, s) && i in db.iterations && j in db.iterations
    requires db.iterations[i].service == s && db.iterations[i].version == Some(version)
    requires db.iterations[j].service == s && db.iterations[j].version == Some(version)
    ensures i == j
  {
    assert IterationOk(db, s, i) && DistinctAt(db, s, i, j);
  }

  /** Looking a version up finds at most one iteration of the service. */
  lemma LookupIsUnique(states: seq<Db>, events: seq<Event>, n: nat, s: Id, version: string, i: Id, j: Id)
    requires CheckedRun(states, events, s) && n < |states|
    requires i in states[n].iterations && j in states[n].iterations
    requires states[n].iterations[i].service == s && states[n].iterations[i].version == Some(version)
    requires states[n].iterations[j].service == s && states[n].iterations[j].version == Some(version)
    ensures i == j
  {
    VersionsStayOk(states, events, n, s);
    UniqueVersion(states[n], s, version, i, j);
  }

  lemma LatestHasNoDot(version: string)
    requires IsVersion(version)
    ensures version != "latest"
  {
    assert Split("latest")[0][0] == 'l';
  }

  lemma FoundService(db: Db, uuid: string, version: string, found: Found, s: Id)
    requires FrameOk(db) && Locates(db, uuid, version, found)
    requires s in db.services && db.services[s].uuid == uuid && !db.services[s].deleted
    ensures !found.NoService? && found.service == s
  {
    assert !found.NoService? ==> UuidAt(db.services, found.service, s);
  }

  /** What a lookup of a published version finds, given that the live part is that of the last commit. */
  lemma FindsCommitted(db: Db, s: Id, it: Id, version: string, last: Option<Id>, found: Found)
    requires FrameOk(db) && VersionsOk(db, s) && LiveMatches(db, s, last)
    requires s in db.services && !db.services[s].deleted && Locates(db, db.services[s].uuid, version, found)
    requires it in db.iterations && db.iterations[it].service == s && db.iterations[it].version == Some(version)
    ensures found == Past(s, it) || (found == Latest(s) && LiveIs(db, s, it))
  {
    FoundService(db, db.services[s].uuid, version, found, s);
    assert IterationOk(db, s, it);
    LatestHasNoDot(version);
    FirstVersion();
    if found.Past? {
      UniqueVersion(db, s, version, found.iteration, it);
    } else if found.Latest? {
      assert last.Some?;
      UniqueVersion(db, s, version, last.value, it);
    }
  }

  /** After version `v` was published from iteration `it`, every later lookup of `v` finds `it`, or the live version
      with the APIs and parameters of the drafts of `it`. */
  lemma LookupFindsCommitted(states: seq<Db>, events: seq<Event>, j: nat, n: nat, s: Id, it: Id, found: Found)
    requires CheckedRun(states, events, s) && j < |events| && j < n < |states|
    requires Publishes(states[j], events[j].action, events[j].response, s, it)
    requires s in states[n].services && !states[n].services[s].deleted
    requires Locates(states[n], states[n].services[s].uuid, events[j].action.version, found)
    ensures found == Past(s, it) || (found == Latest(s) && LiveIs(states[n], s, it))
    ensures it in states[n].iterations && PartOf(states[n].draft, it) == PartOf(states[j].draft, it)
  {
    CommitPublishesDrafts(states, events, j, s, it, n);
    PublishedAt(states, events, j, s, it);
    HistoryIsFrozen(states, events, j + 1, n, it);
    PublishedService(states, events, j, s, it);
    RunIsOk(states, events, n);
    VersionsStayOk(states, events, n, s);
    LiveMatchesLastCommit(states, events, n, s);
    FindsCommitted(states[n], s, it, events[j].action.version, LastCommit(states, events, n, s), found);
  }

  lemma PublishedService(states: seq<Db>, events: seq<Event>, j: nat, s: Id, it: Id)
    requires Run(states, events) && j < |events|
    requires Publishes(states[j], events[j].action, events[j].response, s, it)
    ensures it in states[j + 1].iterations && states[j + 1].iterations[it].service == s
  {
    RunIsOk(states, events, j);
    assert StepAt(states, events, j);
    PublishedVersion(states[j], events[j].action, events[j].response, states[j + 1], s);
  }

  // ---- exactly when versions stay distinct ----

  /** If the request publishes to `s`, its version passed the form against the service's version at that time. */
  predicate Passed(db: Db, a: Action, r: Response, s: Id) {
    a.Committing? && Publishes(db, a, r, s, a.it) && s in db.services ==>
      FormPasses(db.services[s].version, a.version)
  }

  ghost predicate PassedRun(states: seq<Db>, events: seq<Event>, s: Id) {
    && Run(states, events)
    && forall k: nat | k < |events| :: Passed(states[k], events[k].action, events[k].response, s)
  }

  /** A closed iteration has a version not after the service's; an open one has none. */
  ghost predicate OrderedAt(db: Db, s: Id, i: Id) {
    i in db.iterations && db.iterations[i].service == s ==>
      && s in db.services && IsVersion(db.services[s].version)
      && (db.iterations[i].committed <==> db.iterations[i].version.Some?)
      && (db.iterations[i].version.Some? ==>
            && IsVersion(db.iterations[i].version.value)
            && !Before(Triple(db.services[s].version), Triple(db.iterations[i].version.value)))
  }

  ghost predicate Ordered(db: Db, s: Id) {
    && (s in db.services ==> IsVersion(db.services[s].version))
    && forall i {:trigger OrderedAt(db, s, i)} :: OrderedAt(db, s, i)
  }

  /** The versions of the service's closed iterations are pairwise distinct, up to spelling. */
  ghost predicate Distinct(db: Db, s: Id) {
    forall i, j {:trigger DistinctAt(db, s, i, j)} :: DistinctAt(db, s, i, j)
  }

  ghost predicate OpenAt(db: Db, s: Id, i: Id) {
    i in db.iterations && db.iterations[i].service == s ==> db.iterations[i].version.None?
  }

  /** Before anything is published to a service, it is at its first version and none of its iterations has a version. */
  ghost predicate NoneClosed(db: Db, s: Id) {
    && (s in db.services ==> db.services[s].version == "0.0.1")
    && forall i {:trigger OpenAt(db, s, i)} :: OpenAt(db, s, i)
  }

  /** If the request publishes to `s`, it changes the three numbers, or nothing was published before. */
  predicate Changes(db: Db, a: Action, r: Response, s: Id, last: Option<Id>) {
    a.Committing? && Publishes(db, a, r, s, a.it) && s in db.services
    && IsVersion(db.services[s].version) && IsVersion(a.version) ==>
      last.None? || Triple(a.version) != Triple(db.services[s].version)
  }

  lemma SameVersionsOrdered(db: Db, db': Db, s: Id)
    requires Ordered(db, s) && SameVersions(db, db', s)
    ensures Ordered(db', s)
    ensures Distinct(db, s) ==> Distinct(db', s)
    ensures NoneClosed(db, s) ==> NoneClosed(db', s)
  {
    FirstVersion();
    forall i ensures OrderedAt(db', s, i) {
      assert SameVersionAt(db, db', s, i) && OrderedAt(db, s, i);
    }
    if Distinct(db, s) {
      forall i, j ensures DistinctAt(db', s, i, j) {
        assert SameVersionAt(db, db', s, i) && SameVersionAt(db, db', s, j) && DistinctAt(db, s, i, j);
      }
    }
    if NoneClosed(db, s) {
      forall i ensures OpenAt(db', s, i) {
        assert SameVersionAt(db, db', s, i) && OpenAt(db, s, i);
      }
    }
  }

  lemma PublishedOrdered(db: Db, it: Id, version: string, db': Db, s: Id)
    requires Ordered(db, s) && Published(db, it, version, db', s)
    requires FormPasses(db.services[s].version, version)
    ensures Ordered(db', s)
  {
    AcceptsIffNotBefore(db.services[s].version, version);
    forall i ensures OrderedAt(db', s, i) {
      assert OrderedAt(db, s, i);
    }
  }

  lemma PublishedDistinct(db: Db, it: Id, version: string, db': Db, s: Id)
    requires Ordered(db, s) && Distinct(db, s) && Published(db, it, version, db', s)
    requires FormPasses(db.services[s].version, version)
    requires NoneClosed(db, s) || Triple(version) != Triple(db.services[s].version)
    ensures Distinct(db', s)
  {
    AcceptsIffNotBefore(db.services[s].version, version);
    forall i, j ensures DistinctAt(db', s, i, j) {
      assert DistinctAt(db, s, i, j) && OrderedAt(db, s, i) && OrderedAt(db, s, j);
      if NoneClosed(db, s) {
        assert OpenAt(db, s, i) && OpenAt(db, s, j);
      }
    }
  }

  /** Publishing the three numbers that the last committed iteration already has repeats them. */
  lemma PublishedAgain(db: Db, it: Id, version: string, db': Db, s: Id, last: Id)
    requires Ordered(db, s) && Published(db, it, version, db', s) && LiveIs(db, s, last) && !db.iterations[it].committed
    requires IsVersion(version) && Triple(version) == Triple(db.services[s].version)
    ensures last != it && !DistinctAt(db', s, last, it)
  {
    assert OrderedAt(db, s, last);
  }

  lemma PublishesOpen(db: Db, a: Action, r: Response, db': Db, s: Id)
    requires Step(db, a, r, db') && a.Committing? && Publishes(db, a, r, s, a.it)
    ensures !db.iterations[a.it].committed
  {
  }

  lemma DistinctStepIff(db: Db, a: Action, r: Response, db': Db, s: Id, last: Option<Id>)
    requires DbOk(db) && Step(db, a, r, db') && Passed(db, a, r, s)
    requires Ordered(db, s) && LiveMatches(db, s, last) && (last.None? ==> NoneClosed(db, s))
    ensures Ordered(db', s)
    ensures Distinct(db, s) ==> (Distinct(db', s) <==> Changes(db, a, r, s, last))
    ensures KeepsLive(db, a, r, s) && last.None? ==> NoneClosed(db', s)
  {
    if KeepsLive(db, a, r, s) {
      VersionsKept(db, a, r, db', s);
      SameVersionsOrdered(db, db', s);
    } else {
      PublishedVersion(db, a, r, db', s);
      PublishesOpen(db, a, r, db', s);
      PublishedOrdered(db, a.it, a.version, db', s);
      if Distinct(db, s) && Changes(db, a, r, s, last) {
        PublishedDistinct(db, a.it, a.version, db', s);
      } else if !Changes(db, a, r, s, last) {
        PublishedAgain(db, a.it, a.version, db', s, last.value);
      }
    }
  }

  lemma FreshOrdered(db: Db, s: Id)
    requires Fresh(db)
    ensures Ordered(db, s) && Distinct(db, s) && NoneClosed(db, s)
  {
  }

  ghost predicate ChangesAt(states: seq<Db>, events: seq<Event>, s: Id, k: nat)
    requires |states| == |events| + 1
  {
    k < |events| ==>
      Changes(states[k], events[k].action, events[k].response, s, LastCommit(states, events, k, s))
  }

  lemma OrderedNext(states: seq<Db>, events: seq<Event>, k: nat, s: Id)
    requires PassedRun(states, events, s) && k < |events| && Ordered(states[k], s)
    requires LastCommit(states, events, k, s).None? ==> NoneClosed(states[k], s)
    ensures Ordered(states[k + 1], s)
    ensures LastCommit(states, events, k + 1, s).None? ==> NoneClosed(states[k + 1], s)
    ensures Distinct(states[k], s) ==> (Distinct(states[k + 1], s) <==> ChangesAt(states, events, s, k))
  {
    RunIsOk(states, events, k);
    LiveMatchesLastCommit(states, events, k, s);
    assert StepAt(states, events, k);
    DistinctStepIff(states[k], events[k].action, events[k].response, states[k + 1], s,
      LastCommit(states, events, k, s));
  }

  lemma {:induction false} StaysOrdered(states: seq<Db>, events: seq<Event>, n: nat, s: Id)
    requires PassedRun(states, events, s) && n < |states|
    ensures Ordered(states[n], s)
    ensures LastCommit(states, events, n, s).None? ==> NoneClosed(states[n], s)
  {
    if n == 0 {
      FreshOrdered(states[0], s);
    } else {
      StaysOrdered(states, events, n - 1, s);
      OrderedNext(states, events, n - 1, s);
    }
  }

  /** Where every publication to `s` passes the form: the versions of its closed iterations are distinct at every point
      of the run exactly when every publication but the first changes the three numbers. */
  lemma {:induction false} DistinctIff(states: seq<Db>, events: seq<Event>, n: nat, s: Id)
    requires PassedRun(states, events, s) && n < |states|
    ensures (forall m: nat | m <= n :: Distinct(states[m], s)) <==>
      (forall k: nat | k < n :: ChangesAt(states, events, s, k))
  {
    if n == 0 {
      FreshOrdered(states[0], s);
    } else {
      DistinctIff(states, events, n - 1, s);
      StaysOrdered(states, events, n - 1, s);
      OrderedNext(states, events, n - 1, s);
      if forall m: nat | m < n :: Distinct(states[m], s) {
        assert Distinct(states[n - 1], s);
      } else {
        assert !(forall m: nat | m <= n - 1 :: Distinct(states[m], s));
      }
    }
  }

  /** A publication keeps all of VersionsOk only if it changes the three numbers. */
  lemma OkMeansChecked(db: Db, a: Action, r: Response, db': Db, s: Id, last: Option<Id>)
    requires DbOk(db) && Step(db, a, r, db') && Passed(db, a, r, s)
    requires VersionsOk(db, s) && VersionsOk(db', s) && LiveMatches(db, s, last)
    ensures Checked(db, a, r, s)
  {
    if !KeepsLive(db, a, r, s) {
      PublishedVersion(db, a, r, db', s);
      PublishesOpen(db, a, r, db', s);
      FirstVersion();
      assert IterationOk(db', s, a.it);
      if last.Some? {
        assert DistinctAt(db', s, last.value, a.it) && IterationOk(db, s, last.value);
      }
    }
  }

  lemma CheckedNext(states: seq<Db>, events: seq<Event>, k: nat, s: Id)
    requires PassedRun(states, events, s) && k < |events| && VersionsOk(states[k], s) && VersionsOk(states[k + 1], s)
    ensures Checked(states[k], events[k].action, events[k].response, s)
  {
    RunIsOk(states, events, k);
    LiveMatchesLastCommit(states, events, k, s);
    assert StepAt(states, events, k);
    OkMeansChecked(states[k], events[k].action, events[k].response, states[k + 1], s, LastCommit(states, events, k, s));
  }

  /** Where every publication to `s` passes the form: its versions are distinct, after 0.0.1 and not after the
      service's at every point of the run exactly when every publication changes the three numbers. */
  lemma VersionsOkIff(states: seq<Db>, events: seq<Event>, s: Id)
    requires PassedRun(states, events, s)
    ensures (forall n: nat | n < |states| :: VersionsOk(states[n], s)) <==> CheckedRun(states, events, s)
  {
    if CheckedRun(states, events, s) {
      forall n: nat | n < |states| ensures VersionsOk(states[n], s) {
        VersionsStayOk(states, events, n, s);
      }
    } else if forall n: nat | n < |states| :: VersionsOk(states[n], s) {
      forall k: nat | k < |events| ensures Checked(states[k], events[k].action, events[k].response, s) {
        assert VersionsOk(states[k], s) && VersionsOk(states[k + 1], s);
        CheckedNext(states, events, k, s);
      }
      assert false;
    }
  }

  // ---- no leading zeros: a check that needs no look at the current version ----

  /** The version of a publication to `s` passed the form and has no leading zeros. */
  predicate CanonicalAt(db: Db, a: Action, r: Response, s: Id) {
    a.Committing? && Publishes(db, a, r, s, a.it) && s in db.services ==>
      FormPasses(db.services[s].version, a.version) && NoPadding(a.version)
  }

  ghost predicate CanonicalRun(states: seq<Db>, events: seq<Event>, s: Id) {
    && Run(states, events)
    && forall k: nat | k < |events| :: CanonicalAt(states[k], events[k].action, events[k].response, s)
  }

  lemma StepStaysCanonical(db: Db, a: Action, r: Response, db': Db, s: Id)
    requires DbOk(db) && Step(db, a, r, db') && CanonicalAt(db, a, r, s)
    requires s in db.services ==> Canonical(db.services[s].version)
    ensures Checked(db, a, r, s)
    ensures s in db'.services ==> Canonical(db'.services[s].version)
  {
    if KeepsLive(db, a, r, s) {
      VersionsKept(db, a, r, db', s);
      InitialVersionIsCanonical();
    } else {
      PublishedVersion(db, a, r, db', s);
      AcceptedIsGreater(db.services[s].version, a.version);
    }
  }

  lemma {:induction false} StaysCanonical(states: seq<Db>, events: seq<Event>, n: nat, s: Id)
    requires CanonicalRun(states, events, s) && n < |states|
    ensures s in states[n].services ==> Canonical(states[n].services[s].version)
    ensures forall k: nat | k < n :: Checked(states[k], events[k].action, events[k].response, s)
  {
    if n != 0 {
      StaysCanonical(states, events, n - 1, s);
      RunIsOk(states, events, n - 1);
      assert StepAt(states, events, n - 1);
      StepStaysCanonical(states[n - 1], events[n - 1].action, events[n - 1].response, states[n], s);
    }
  }

  /** Without leading zeros in the service's publications, the form's check is enough. */
  lemma CanonicalRunIsChecked(states: seq<Db>, events: seq<Event>, s: Id)
    requires CanonicalRun(states, events, s)
    ensures CheckedRun(states, events, s)
  {
    StaysCanonical(states, events, |events|, s);
  }
}
