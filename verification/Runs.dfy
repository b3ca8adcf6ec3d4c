/** Whole runs from a database without services: what holds at every point of every one of them. */
module Runs {
  import opened Model
  import opened Tables
  import opened Catalog
  import opened Actions
  import opened Invariants
  import opened Frames

  datatype Event = Event(action: Action, response: Response)

  ghost predicate StepAt(states: seq<Db>, events: seq<Event>, k: nat)
    requires |states| == |events| + 1 && k < |events|
  {
    Step(states[k], events[k].action, events[k].response, states[k + 1])
  }

  ghost predicate Run(states: seq<Db>, events: seq<Event>) {
    && |states| == |events| + 1
    && Fresh(states[0])
    && forall k: nat | k < |events| :: StepAt(states, events, k)
  }

  /** A run goes on with any step. */
  lemma RunExtends(states: seq<Db>, events: seq<Event>, e: Event, db': Db)
    requires Run(states, events) && Step(states[|events|], e.action, e.response, db')
    ensures Run(states + [db'], events + [e])
  {
    var states', events' := states + [db'], events + [e];
    forall k: nat | k < |events'| ensures StepAt(states', events', k) {
      assert k < |events| ==> StepAt(states, events, k);
    }
  }

  /** Every reachable database is well formed. */
  lemma {:induction false} RunIsOk(states: seq<Db>, events: seq<Event>, n: nat)
    requires Run(states, events) && n < |states|
    ensures DbOk(states[n])
  {
    if n == 0 {
      FreshIsOk(states[0]);
    } else {
      RunIsOk(states, events, n - 1);
      assert StepAt(states, events, n - 1);
      StepKeepsOk(states[n - 1], events[n - 1].action, events[n - 1].response, states[n]);
    }
  }

  /** In every reachable database parents stay within their API or draft, the parent relation has no cycle,
      and only expandable parameters have children. */
  lemma ReachableForests(states: seq<Db>, events: seq<Event>, n: nat, t: Table, i: Id)
    requires Run(states, events) && n < |states| && i in t.rows
    requires t in {states[n].live.req, states[n].live.resp, states[n].draft.req, states[n].draft.resp}
    ensures t.rows[i].parent.Some? ==>
              var p := t.rows[i].parent.value;
              p in t.rows && t.rows[p].owner == t.rows[i].owner && t.rows[p].payload.Expandable()
    ensures forall k: nat | 0 < k :: Above(t.rows, i, k) != Some(i)
    ensures exists k: nat :: Above(t.rows, i, k) == None
  {
    RunIsOk(states, events, n);
    var owners := if t == states[n].live.req || t == states[n].live.resp then states[n].live.apis.Keys
                  else states[n].draft.apis.Keys;
    assert ParentOkAt(t.rows, i);
    NoRowAboveItself(t, owners, i);
  }

  // ---- frozen history ----

  /** Once committed, an iteration keeps its version, description, drafts and parameters for the rest of the run. */
  lemma {:induction false} HistoryIsFrozen(states: seq<Db>, events: seq<Event>, i: nat, j: nat, it: Id)
    requires Run(states, events) && i <= j < |states|
    requires it in states[i].iterations && states[i].iterations[it].committed
    ensures it in states[j].iterations && states[j].iterations[it] == states[i].iterations[it]
    ensures PartOf(states[j].draft, it) == PartOf(states[i].draft, it)
    decreases j
  {
    if i < j {
      HistoryIsFrozen(states, events, i, j - 1, it);
      RunIsOk(states, events, j - 1);
      assert StepAt(states, events, j - 1);
      CommittedIsFrozen(states[j - 1], events[j - 1].action, events[j - 1].response, states[j], it);
    }
  }

  lemma CommitServiceKeys(db: Db, it: Id, version: string, user: Id, r: Response, db': Db)
    requires CommitIteration(db, it, version, user, r, db')
    ensures db'.services.Keys == db.services.Keys
  {
    if db' != db {
      var m :| Committed(db, it, version, db', m);
    }
  }

  lemma ServiceKeys(db: Db, a: Action, r: Response, db': Db)
    requires Step(db, a, r, db')
    ensures db.services.Keys <= db'.services.Keys
    ensures !a.CreatingService? ==> db'.services.Keys == db.services.Keys
  {
    if a.Committing? {
      CommitServiceKeys(db, a.it, a.version, a.user, r, db');
    }
  }

  // ---- the live tables agree with the last commit ----

  /** The iteration that service `s` was last published from, among the first `n` events. */
  function LastCommit(states: seq<Db>, events: seq<Event>, n: nat, s: Id): Option<Id>
    requires |states| == |events| + 1 && n <= |events|
  {
    if n == 0 then None
    else
      var e := events[n - 1];
      if KeepsLive(states[n - 1], e.action, e.response, s) then LastCommit(states, events, n - 1, s)
      else Some(e.action.it)
  }

  /** The live APIs and parameter forests of `s` are those of the drafts of `it`, and so are version and description. */
  ghost predicate LiveIs(db: Db, s: Id, it: Id) {
    && s in db.services && it in db.iterations
    && db.iterations[it].committed && db.iterations[it].service == s
    && db.iterations[it].version == Some(db.services[s].version)
    && db.iterations[it].description == db.services[s].description
    && Isomorphic(PartOf(db.draft, it), PartOf(db.live, s))
  }

  lemma LiveIsKept(db: Db, a: Action, r: Response, db': Db, s: Id, it: Id)
    requires DbOk(db) && Step(db, a, r, db') && LiveIs(db, s, it)
    requires KeepsLive(db, a, r, s)
    ensures LiveIs(db', s, it)
  {
    CommittedIsFrozen(db, a, r, db', it);
    LiveKept(db, a, r, db', s);
    IsomorphicChains(PartOf(db.draft, it), PartOf(db.live, s), PartOf(db'.live, s));
  }

  /** Nothing has been published to a service: it has no live API and its first version. */
  ghost predicate Unpublished(db: Db, s: Id) {
    s in db.services ==> InScope(db.live, s) == {} && db.services[s].version == "0.0.1"
  }

  lemma UnpublishedKept(db: Db, a: Action, r: Response, db': Db, s: Id)
    requires DbOk(db) && Step(db, a, r, db') && Unpublished(db, s)
    requires KeepsLive(db, a, r, s)
    ensures Unpublished(db', s)
  {
    if s in db.services {
      LiveKept(db, a, r, db', s);
      var m :| Iso(PartOf(db.live, s), PartOf(db'.live, s), m);
      assert PartOf(db.live, s).apis.Keys == {};
      assert m.api.Values == {};
      assert PartOf(db'.live, s).apis.Keys == InScope(db'.live, s);
    } else if s in db'.services {
      ServiceKeys(db, a, r, db');
      assert db'.live == db.live;
      forall i | i in db.live.apis ensures db.live.apis[i].scope != s {
        assert db.live.apis[i].scope in db.services;
      }
    }
  }

  ghost predicate LiveMatches(db: Db, s: Id, last: Option<Id>) {
    match last
    case Some(it) => LiveIs(db, s, it)
    case None => Unpublished(db, s)
  }

  lemma LiveMatchesStep(db: Db, a: Action, r: Response, db': Db, s: Id, last: Option<Id>)
    requires DbOk(db) && Step(db, a, r, db') && LiveMatches(db, s, last)
    ensures LiveMatches(db', s, if KeepsLive(db, a, r, s) then last else Some(a.it))
  {
    if !KeepsLive(db, a, r, s) {
      PublishReplaces(db, a, r, db', s, a.it);
    } else if last.Some? {
      LiveIsKept(db, a, r, db', s, last.value);
    } else {
      UnpublishedKept(db, a, r, db', s);
    }
  }

  lemma LiveMatchesNext(states: seq<Db>, events: seq<Event>, k: nat, s: Id, last: Option<Id>)
    requires Run(states, events) && k < |events| && LiveMatches(states[k], s, last)
    ensures var e := events[k];
      LiveMatches(states[k + 1], s, if KeepsLive(states[k], e.action, e.response, s) then last else Some(e.action.it))
  {
    var db, db', e := states[k], states[k + 1], events[k];
    RunIsOk(states, events, k);
    assert StepAt(states, events, k);
    LiveMatchesStep(db, e.action, e.response, db', s, last);
  }

  /** At every point of every run, each service is live exactly as its last committed iteration has it,
      or was never published and has no live API. */
  lemma {:induction false} LiveMatchesLastCommit(states: seq<Db>, events: seq<Event>, n: nat, s: Id)
    requires Run(states, events) && n < |states|
    ensures LiveMatches(states[n], s, LastCommit(states, events, n, s))
  {
    if n != 0 {
      LiveMatchesLastCommit(states, events, n - 1, s);
      LiveMatchesNext(states, events, n - 1, s, LastCommit(states, events, n - 1, s));
    }
  }

  // ---- start, then commit ----

  /** Event `k` opened iteration `it` of service `s`. */
  predicate Opens(events: seq<Event>, k: nat, s: Id, it: Id)
    requires k < |events|
  {
    events[k].action.Starting? && events[k].action.service == s && events[k].response == Success(it)
  }

  lemma OpenedCopy(db: Db, a: Action, db': Db, it: Id)
    requires DbOk(db) && a.Starting? && Step(db, a, Success(it), db')
    ensures Isomorphic(PartOf(db.live, a.service), PartOf(db'.draft, it)) && a.service in db.services
    ensures it !in db.iterations && it in db'.iterations
    ensures db'.iterations[it] == Iteration(a.service, a.user, None, None, false)
  {
    var m :| Started(db, a.service, a.user, db', m);
    assert InScope(db.draft, it) == {};
    LayerCopyIso(db.live, a.service, db.draft, db.iterations.Keys, it, db'.draft, m);
  }

  lemma DraftsWaitOnce(states: seq<Db>, events: seq<Event>, k: nat, it: Id)
    requires Run(states, events) && k < |events| && it in states[k].iterations && Target(events[k].action) != Some(it)
    ensures it in states[k + 1].iterations && states[k + 1].iterations[it] == states[k].iterations[it]
    ensures PartOf(states[k + 1].draft, it) == PartOf(states[k].draft, it)
  {
    var db, db', e := states[k], states[k + 1], events[k];
    RunIsOk(states, events, k);
    assert StepAt(states, events, k);
    OthersLeaveDrafts(db, e.action, e.response, db', it);
  }

  lemma {:induction false} DraftsWait(states: seq<Db>, events: seq<Event>, i: nat, j: nat, it: Id)
    requires Run(states, events) && i <= j < |states| && it in states[i].iterations
    requires forall k: nat | i <= k < j :: Target(events[k].action) != Some(it)
    ensures it in states[j].iterations && states[j].iterations[it] == states[i].iterations[it]
    ensures PartOf(states[j].draft, it) == PartOf(states[i].draft, it)
    decreases j
  {
    if i < j {
      DraftsWait(states, events, i, j - 1, it);
      DraftsWaitOnce(states, events, j - 1, it);
    }
  }

  lemma OpenedAt(states: seq<Db>, events: seq<Event>, i: nat, s: Id, it: Id)
    requires Run(states, events) && i < |events| && Opens(events, i, s, it)
    ensures Isomorphic(PartOf(states[i].live, s), PartOf(states[i + 1].draft, it)) && s in states[i].services
    ensures it in states[i + 1].iterations && states[i + 1].iterations[it].description == None
  {
    RunIsOk(states, events, i);
    assert StepAt(states, events, i);
    OpenedCopy(states[i], events[i].action, states[i + 1], it);
  }

  lemma PublishedAt(states: seq<Db>, events: seq<Event>, j: nat, s: Id, it: Id)
    requires Run(states, events) && j < |events|
    requires Publishes(states[j], events[j].action, events[j].response, s, it)
    ensures s in states[j + 1].services && it in states[j + 1].iterations
    ensures Isomorphic(PartOf(states[j].draft, it), PartOf(states[j + 1].live, s))
    ensures PartOf(states[j + 1].draft, it) == PartOf(states[j].draft, it)
    ensures PartOf(states[j + 1].live, s).apis.Keys !! states[j].live.apis.Keys
    ensures states[j + 1].services[s].description == states[j].iterations[it].description
    ensures states[j + 1].iterations[it].version == Some(events[j].action.version)
      && states[j + 1].iterations[it].committed
  {
    RunIsOk(states, events, j);
    assert StepAt(states, events, j);
    PublishReplaces(states[j], events[j].action, events[j].response, states[j + 1], s, it);
  }

  /** Starting an iteration and committing it without a request to it in between publishes the APIs and forests that
      were live at the start, whatever other users committed meanwhile; nothing live just before the commit
      survives. */
  lemma StartThenCommit(states: seq<Db>, events: seq<Event>, i: nat, j: nat, s: Id, it: Id)
    requires Run(states, events) && i < j < |events|
    requires Opens(events, i, s, it)
    requires Publishes(states[j], events[j].action, events[j].response, s, it)
    requires forall k: nat | i < k < j :: Target(events[k].action) != Some(it)
    ensures Isomorphic(PartOf(states[i].live, s), PartOf(states[j + 1].live, s))
    ensures PartOf(states[j + 1].live, s).apis.Keys !! states[j].live.apis.Keys
    ensures s in states[j + 1].services && states[j + 1].services[s].description == None
    ensures s in states[i].services
    ensures states[j + 1].services[s].description == states[i].services[s].description <==>
              states[i].services[s].description == None
  {
    OpenedAt(states, events, i, s, it);
    DraftsWait(states, events, i + 1, j, it);
    PublishedAt(states, events, j, s, it);
    IsomorphicChains(PartOf(states[i].live, s), PartOf(states[j].draft, it), PartOf(states[j + 1].live, s));
  }

  /** Committing publishes exactly the drafts as they stand at that moment, and keeps them as history. */
  lemma CommitPublishesDrafts(states: seq<Db>, events: seq<Event>, j: nat, s: Id, it: Id, n: nat)
    requires Run(states, events) && j < |events| && j < n < |states|
    requires Publishes(states[j], events[j].action, events[j].response, s, it)
    ensures Isomorphic(PartOf(states[j].draft, it), PartOf(states[j + 1].live, s))
    ensures PartOf(states[j + 1].live, s).apis.Keys !! states[j].live.apis.Keys
    ensures PartOf(states[n].draft, it) == PartOf(states[j].draft, it)
    ensures it in states[n].iterations && states[n].iterations[it].version == Some(events[j].action.version)
  {
    PublishedAt(states, events, j, s, it);
    HistoryIsFrozen(states, events, j + 1, n, it);
  }
}
