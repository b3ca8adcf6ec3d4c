/** At most one open iteration for each service and creator. */
module OpenIterations {
  import opened Model
  import opened Catalog
  import opened Actions
  import opened Runs

  ghost predicate OneOpen(db: Db) {
    forall i, j, s, u | OpenIteration(db, s, u, i) && OpenIteration(db, s, u, j) :: i == j
  }

  lemma StartKeepsOneOpen(db: Db, service: Id, user: Id, r: Response, db': Db)
    requires DbOk(db) && OneOpen(db) && StartIteration(db, service, user, r, db')
    ensures OneOpen(db')
  {
    if db' != db {
      var m :| Started(db, service, user, db', m);
      forall i, j, s, u | OpenIteration(db', s, u, i) && OpenIteration(db', s, u, j) ensures i == j {
        assert i != db.nextIteration ==> OpenIteration(db, s, u, i);
        assert j != db.nextIteration ==> OpenIteration(db, s, u, j);
      }
    }
  }

  /** What the other requests do to iterations: they may close one and describe one. */
  lemma OthersOpenNothing(db: Db, a: Action, r: Response, db': Db, i: Id, s: Id, u: Id)
    requires Step(db, a, r, db') && !a.Starting? && OpenIteration(db', s, u, i)
    ensures OpenIteration(db, s, u, i)
  {
    if a.Committing? && db' != db {
      var m :| Committed(db, a.it, a.version, db', m);
    }
  }

  lemma StepKeepsOneOpen(db: Db, a: Action, r: Response, db': Db)
    requires DbOk(db) && OneOpen(db) && Step(db, a, r, db')
    ensures OneOpen(db')
  {
    if a.Starting? {
      StartKeepsOneOpen(db, a.service, a.user, r, db');
    } else {
      forall i, j, s, u | OpenIteration(db', s, u, i) && OpenIteration(db', s, u, j) ensures i == j {
        OthersOpenNothing(db, a, r, db', i, s, u);
        OthersOpenNothing(db, a, r, db', j, s, u);
      }
    }
  }

  /** In every reachable database a user has at most one open iteration of a service. */
  lemma {:induction false} OneOpenAlways(states: seq<Db>, events: seq<Event>, n: nat)
    requires Run(states, events) && n < |states|
    ensures OneOpen(states[n])
  {
    if n != 0 {
      OneOpenAlways(states, events, n - 1);
      RunIsOk(states, events, n - 1);
      assert StepAt(states, events, n - 1);
      StepKeepsOneOpen(states[n - 1], events[n - 1].action, events[n - 1].response, states[n]);
    }
  }

  /** Starting again before committing leads back to the same iteration and changes nothing. */
  lemma StartTwice(states: seq<Db>, events: seq<Event>, k: nat, it: Id)
    requires Run(states, events) && k < |events| && events[k].action.Starting?
    requires OpenIteration(states[k], events[k].action.service, events[k].action.user, it)
    requires StartGuard(states[k], events[k].action.service, events[k].action.user).Granted?
    ensures events[k].response == InProgress(it) && states[k + 1] == states[k]
  {
    OneOpenAlways(states, events, k);
    assert StepAt(states, events, k);
  }
}
