/**
 * Method and path together: the tables declare them unique, but only method and name are enforced.
 * For every request: exactly when the drafts of an iteration keep distinct methods and paths.
 */
module Paths {
  import opened Model
  import opened Tables
  import opened Catalog
  import opened Actions

  /** Some API of the scope has the method and path. */
  predicate PathTaken(apis: map<Id, Api>, scope: Id, verb: HttpMethod, path: string) {
    exists i :: i in apis && apis[i].scope == scope && apis[i].verb == verb && apis[i].path == path
  }

  /** No two APIs of the scope have the same method and path. */
  ghost predicate PathsApart(apis: map<Id, Api>, scope: Id) {
    forall i, j | i in apis && j in apis && apis[i].scope == scope && apis[j].scope == scope
                  && apis[i].verb == apis[j].verb && apis[i].path == apis[j].path :: i == j
  }

  lemma InsertedPath(apis: map<Id, Api>, n: Id, row: Api)
    requires n !in apis && PathsApart(apis, row.scope)
    ensures PathsApart(apis[n := row], row.scope) <==> !PathTaken(apis, row.scope, row.verb, row.path)
  {
    var apis' := apis[n := row];
    if PathTaken(apis, row.scope, row.verb, row.path) {
      var i :| i in apis && apis[i].scope == row.scope && apis[i].verb == row.verb && apis[i].path == row.path;
      assert apis'[i] == apis[i] && apis'[n] == row && i != n;
    }
  }

  lemma NoClashNoPath(apis: map<Id, Api>, scope: Id, verb: HttpMethod, path: string, name: string)
    requires !Clashes(apis, scope, VerbName(verb), path, name)
    ensures !PathTaken(apis, scope, verb, path)
  {
  }

  /** What a successful addition does. */
  lemma AddedRow(db: Db, a: Action, n: Id, db': Db) returns (row: Api)
    requires a.Adding? && Step(db, a, Success(n), db')
    ensures n == db.draft.nextApi && db'.draft.apis == db.draft.apis[n := row]
    ensures row.scope == a.it && row.verb == ParseVerb(a.verb) && row.path == a.path && row.name == a.name
    ensures !Clashes(db.draft.apis, a.it, a.verb, a.path, a.name)
    ensures !Clashes(db.live.apis, db.iterations[a.it].service, a.verb, a.path, a.name)
  {
    row := db'.draft.apis[n];
  }

  /**
   * An added API repeats a method and path exactly when its method is unknown and the path is taken for GET:
   * the clash check compares the method as given, the row stores GET.
   */
  lemma AddKeepsPathsIff(db: Db, a: Action, n: Id, db': Db)
    requires DbOk(db) && a.Adding? && Step(db, a, Success(n), db')
    requires PathsApart(db.draft.apis, a.it)
    ensures PathsApart(db'.draft.apis, a.it) <==>
              VerbName(ParseVerb(a.verb)) == a.verb || !PathTaken(db.draft.apis, a.it, GET, a.path)
  {
    var row := AddedRow(db, a, n, db');
    InsertedPath(db.draft.apis, n, row);
    if VerbName(row.verb) == a.verb {
      NoClashNoPath(db.draft.apis, a.it, row.verb, a.path, a.name);
    }
  }

  /** With a known method, the added API differs in method and path, and in method and name, from every draft of the
      iteration and from every live API of the service. */
  lemma AddedIsDistinct(db: Db, a: Action, n: Id, db': Db, i: Id)
    requires DbOk(db) && a.Adding? && Step(db, a, Success(n), db') && VerbName(ParseVerb(a.verb)) == a.verb
    ensures n in db'.draft.apis && n !in db.draft.apis
    ensures db'.draft.apis[n].scope == a.it && db'.draft.apis[n].verb == ParseVerb(a.verb)
    ensures db'.draft.apis[n].name == a.name && db'.draft.apis[n].path == a.path
    ensures i in db.draft.apis && db.draft.apis[i].scope == a.it && db.draft.apis[i].verb == db'.draft.apis[n].verb ==>
              db.draft.apis[i].path != a.path && db.draft.apis[i].name != a.name
    ensures i in db.live.apis && db.live.apis[i].scope == db.iterations[a.it].service
            && db.live.apis[i].verb == db'.draft.apis[n].verb ==>
              db.live.apis[i].path != a.path && db.live.apis[i].name != a.name
  {
    var row := AddedRow(db, a, n, db');
  }

  lemma ReplacedPath(apis: map<Id, Api>, x: Id, row: Api)
    requires x in apis && apis[x].scope == row.scope && PathsApart(apis, row.scope)
    ensures PathsApart(apis[x := row], row.scope) <==> !PathTaken(apis - {x}, row.scope, row.verb, row.path)
  {
    var apis', others := apis[x := row], apis - {x};
    if PathTaken(others, row.scope, row.verb, row.path) {
      var i :| i in others && others[i].scope == row.scope && others[i].verb == row.verb && others[i].path == row.path;
      assert apis'[i] == others[i] && apis'[x] == row && i != x;
    } else {
      forall i, j | i in apis' && j in apis' && apis'[i].scope == row.scope && apis'[j].scope == row.scope
                    && apis'[i].verb == apis'[j].verb && apis'[i].path == apis'[j].path
        ensures i == j
      {
        assert i != x ==> i in others && others[i] == apis'[i];
        assert j != x ==> j in others && others[j] == apis'[j];
      }
    }
  }

  /** An update repeats a method and path exactly when another draft of the iteration has them: nothing checks this. */
  lemma UpdateKeepsPathsIff(db: Db, a: Action, db': Db)
    requires DbOk(db) && a.Updating? && Step(db, a, Done, db')
    requires PathsApart(db.draft.apis, a.it)
    ensures PathsApart(db'.draft.apis, a.it) <==> !PathTaken(db.draft.apis - {a.draft}, a.it, ParseVerb(a.verb), a.path)
  {
    var row := db'.draft.apis[a.draft];
    assert db'.draft.apis == db.draft.apis[a.draft := row];
    ReplacedPath(db.draft.apis, a.draft, row);
  }

  /** A duplicate repeats a method and path exactly when the path with the suffix is taken. */
  lemma CopyKeepsPathsIff(db: Db, a: Action, db': Db)
    requires DbOk(db) && a.Copying? && Step(db, a, Done, db')
    requires PathsApart(db.draft.apis, a.it)
    ensures PathsApart(db'.draft.apis, a.it) <==>
              !PathTaken(db.draft.apis, a.it, db.draft.apis[a.draft].verb, db.draft.apis[a.draft].path + a.suffix)
  {
    var req, resp :| Duplicated(db, a.draft, a.user, a.suffix, db', req, resp);
    var row := Duplicate(db.draft.apis[a.draft], a.user, a.suffix);
    InsertedPath(db.draft.apis, db.draft.nextApi, row);
  }

  /** Isomorphic parts agree on whether methods and paths are distinct; so starting and committing carry it along. */
  lemma IsoKeepsPaths(l: Layer, s: Id, l': Layer, n: Id)
    requires Isomorphic(PartOf(l, s), PartOf(l', n))
    ensures PathsApart(l.apis, s) <==> PathsApart(l'.apis, n)
  {
    var m :| Iso(PartOf(l, s), PartOf(l', n), m);
    var back := IsoFlip(PartOf(l, s), PartOf(l', n), m);
    if PathsApart(l.apis, s) {
      CarriesPaths(l', n, l, s, back);
    }
    if PathsApart(l'.apis, n) {
      CarriesPaths(l, s, l', n, m);
    }
  }

  lemma CarriesPaths(l: Layer, s: Id, l': Layer, n: Id, m: Renaming)
    requires Iso(PartOf(l, s), PartOf(l', n), m) && PathsApart(l'.apis, n)
    ensures PathsApart(l.apis, s)
  {
    var a, b := ApisOfScope(l.apis, s), ApisOfScope(l'.apis, n);
    forall i, j | i in l.apis && j in l.apis && l.apis[i].scope == s && l.apis[j].scope == s
                  && l.apis[i].verb == l.apis[j].verb && l.apis[i].path == l.apis[j].path
      ensures i == j
    {
      assert i in a && j in a && i in m.api && j in m.api;
      assert m.api[i] in m.api.Values && m.api[j] in m.api.Values;
      assert m.api[i] in b && m.api[j] in b;
      assert ApiIsoAt(a, b, m.api, i) && ApiIsoAt(a, b, m.api, j);
      assert InjectiveAt(m.api, i, j);
    }
  }
}
