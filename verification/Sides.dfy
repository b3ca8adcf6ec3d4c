/** Request rows carry a location, response rows a status code and no default value: in every reachable database. */
module Sides {
  import opened Model
  import opened Forests
  import opened Tables
  import opened Codec
  import opened Catalog
  import opened Actions
  import opened Runs

  predicate SideOk(p: Payload, side: Side) {
    match side
    case Request => p.key.At?
    case Response => p.key.On? && p.defaultValue.None?
  }

  predicate SidedAt(rows: map<Id, Row>, side: Side, i: Id) {
    i in rows ==> SideOk(rows[i].payload, side)
  }

  ghost predicate Sided(rows: map<Id, Row>, side: Side) {
    forall i {:trigger SidedAt(rows, side, i)} :: SidedAt(rows, side, i)
  }

  predicate SidedForest(g: Forest<Payload>, side: Side) {
    match g
    case Empty => true
    case Tree(p, kids, rest) => SideOk(p, side) && SidedForest(kids, side) && SidedForest(rest, side)
  }

  lemma {:induction false} NormalIsSided(f: Forest<Input>, inherited: Given, side: Side)
    ensures SidedForest(Normal(f, inherited, side), side)
  {
    match f
    case Empty =>
    case Tree(x, kids, rest) =>
      NormalIsSided(kids, HandedDown(x, inherited), side);
      NormalIsSided(rest, inherited, side);
  }

  lemma InsertKeepsSided(t: Table, row: Row, side: Side)
    requires Sided(t.rows, side) && SideOk(row.payload, side)
    ensures Sided(Insert(t, row).rows, side)
  {
    forall i ensures SidedAt(Insert(t, row).rows, side, i) {
      assert SidedAt(t.rows, side, i);
    }
  }

  lemma {:induction false} PutKeepsSided(t: Table, g: Forest<Payload>, owner: Id, parent: Option<Id>, side: Side)
    requires Sided(t.rows, side) && SidedForest(g, side)
    ensures Sided(Put(t, g, owner, parent).rows, side)
    decreases g
  {
    match g
    case Empty =>
    case Tree(p, kids, rest) =>
      var t1 := Insert(t, Row(owner, parent, p));
      InsertKeepsSided(t, Row(owner, parent, p), side);
      PutKeepsSided(t1, kids, owner, Some(t.next), side);
      PutKeepsSided(Put(t1, kids, owner, Some(t.next)), rest, owner, parent, side);
  }

  lemma DropKeepsSided(t: Table, gone: set<Id>, side: Side)
    requires Sided(t.rows, side)
    ensures Sided(DropOwners(t, gone).rows, side)
  {
    forall i ensures SidedAt(DropOwners(t, gone).rows, side, i) {
      assert SidedAt(t.rows, side, i);
    }
  }

  lemma RewrittenKeepsSided(t: Table, draft: Id, params: Forest<Input>, side: Side)
    requires Sided(t.rows, side)
    ensures Sided(Rewritten(t, draft, params, side).rows, side)
  {
    DropKeepsSided(t, {draft}, side);
    NormalIsSided(params, Missing, side);
    PutKeepsSided(DropOwners(t, {draft}), Normal(params, Missing, side), draft, None, side);
  }

  lemma CopyKeepsSided(src: Table, owners: map<Id, Id>, before: Table, after: Table, m: map<Id, Id>, side: Side)
    requires TableCopy(src, owners, before, after, m) && Sided(src.rows, side) && Sided(before.rows, side)
    ensures Sided(after.rows, side)
  {
    forall i ensures SidedAt(after.rows, side, i) {
      if i in after.rows && i !in before.rows {
        var x :| x in m && m[x] == i;
        assert CopiedAt(src, owners, after, m, x);
        assert SidedAt(src.rows, side, x);
      } else {
        assert SidedAt(before.rows, side, i);
      }
    }
  }

  ghost predicate SidedLayer(l: Layer) {
    Sided(l.req.rows, Request) && Sided(l.resp.rows, Response)
  }

  lemma LayerCopyKeepsSided(src: Layer, s: Id, before: Layer, n: Id, after: Layer, m: Renaming)
    requires LayerCopy(src, s, before, n, after, m) && SidedLayer(src) && SidedLayer(before)
    ensures SidedLayer(after)
  {
    CopyKeepsSided(src.req, m.api, before.req, after.req, m.req, Request);
    CopyKeepsSided(src.resp, m.api, before.resp, after.resp, m.resp, Response);
  }

  ghost predicate SidesOk(db: Db) {
    SidedLayer(db.live) && SidedLayer(db.draft)
  }

  lemma CommittedKeepsSided(db: Db, it: Id, version: string, db': Db, m: Renaming)
    requires it in db.iterations && db.iterations[it].service in db.services
    requires SidesOk(db) && Committed(db, it, version, db', m)
    ensures SidesOk(db')
  {
    var s := db.iterations[it].service;
    DropKeepsSided(db.live.req, InScope(db.live, s), Request);
    DropKeepsSided(db.live.resp, InScope(db.live, s), Response);
    LayerCopyKeepsSided(db.draft, it, ClearScope(db.live, s), s, db'.live, m);
  }

  lemma CommitKeepsSided(db: Db, it: Id, version: string, user: Id, r: Response, db': Db)
    requires SidesOk(db) && CommitIteration(db, it, version, user, r, db')
    ensures SidesOk(db')
  {
    if db' != db {
      var m :| Committed(db, it, version, db', m);
      CommittedKeepsSided(db, it, version, db', m);
    }
  }

  lemma StartKeepsSided(db: Db, service: Id, user: Id, r: Response, db': Db)
    requires SidesOk(db) && StartIteration(db, service, user, r, db')
    ensures SidesOk(db')
  {
    if db' != db {
      var m :| Started(db, service, user, db', m);
      LayerCopyKeepsSided(db.live, service, db.draft, db.nextIteration, db'.draft, m);
    }
  }

  lemma DuplicateKeepsSided(db: Db, it: Id, draft: Id, user: Id, suffix: string, r: Response, db': Db)
    requires SidesOk(db) && CopyApi(db, it, draft, user, suffix, r, db')
    ensures SidesOk(db')
  {
    if db' != db {
      var req, resp :| Duplicated(db, draft, user, suffix, db', req, resp);
      CopyKeepsSided(db.draft.req, map[draft := db.draft.nextApi], db.draft.req, db'.draft.req, req, Request);
      CopyKeepsSided(db.draft.resp, map[draft := db.draft.nextApi], db.draft.resp, db'.draft.resp, resp, Response);
    }
  }

  lemma DeleteKeepsSided(db: Db, a: Action, r: Response, db': Db)
    requires SidesOk(db) && a.Deleting? && Step(db, a, r, db')
    ensures SidesOk(db')
  {
    DropKeepsSided(db.draft.req, {a.draft}, Request);
    DropKeepsSided(db.draft.resp, {a.draft}, Response);
  }

  lemma UpdateKeepsSided(db: Db, a: Action, r: Response, db': Db)
    requires SidesOk(db) && a.Updating? && Step(db, a, r, db')
    ensures SidesOk(db')
  {
    RewrittenKeepsSided(db.draft.req, a.draft, a.req, Request);
    RewrittenKeepsSided(db.draft.resp, a.draft, a.resp, Response);
  }

  lemma OthersKeepRows(db: Db, a: Action, r: Response, db': Db)
    requires Step(db, a, r, db')
    requires a.CreatingService? || a.Describing? || a.Adding? || a.Categorizing? || a.Other?
    ensures db'.live.req == db.live.req && db'.live.resp == db.live.resp
    ensures db'.draft.req == db.draft.req && db'.draft.resp == db.draft.resp
  {
  }

  lemma StepKeepsSides(db: Db, a: Action, r: Response, db': Db)
    requires SidesOk(db) && Step(db, a, r, db')
    ensures SidesOk(db')
  {
    match a
    case Starting(service, user) => StartKeepsSided(db, service, user, r, db');
    case Committing(it, version, user) => CommitKeepsSided(db, it, version, user, r, db');
    case Copying(it, draft, user, suffix) => DuplicateKeepsSided(db, it, draft, user, suffix, r, db');
    case Deleting(_, _, _) => DeleteKeepsSided(db, a, r, db');
    case Updating(_, _, _, _, _, _, _, _, _, _) => UpdateKeepsSided(db, a, r, db');
    case _ => OthersKeepRows(db, a, r, db');
  }

  lemma FreshIsSided(db: Db)
    requires Fresh(db)
    ensures SidesOk(db)
  {
  }

  /** In every reachable database request rows have locations, response rows have status codes and no default values. */
  lemma {:induction false} RunIsSided(states: seq<Db>, events: seq<Event>, n: nat)
    requires Run(states, events) && n < |states|
    ensures SidesOk(states[n])
  {
    if n == 0 {
      FreshIsSided(states[0]);
    } else {
      RunIsSided(states, events, n - 1);
      assert StepAt(states, events, n - 1);
      StepKeepsSides(states[n - 1], events[n - 1].action, events[n - 1].response, states[n]);
    }
  }
}
