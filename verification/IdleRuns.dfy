/** Two runs of a service without APIs: one in which every publication passes the form and a version is published
    twice, and one that starts and commits and so loses the description. */
module IdleRuns {
  import opened Model
  import opened Catalog
  import opened Actions
  import opened Frames
  import opened Runs
  import opened Versions
  import opened VersionRuns

  /** One service without APIs, at version `version`, with the given description and iterations. */
  function Idle(version: string, text: Option<string>, iterations: map<Id, Iteration>, next: Id): Db {
    Db(map[], map[], map[1 := Service("s", 1, {}, version, text, false)], 2, iterations, next, EMPTY_LAYER, EMPTY_LAYER)
  }

  function Open(): Iteration {
    Iteration(1, 1, None, None, false)
  }

  function Closed(version: string): Iteration {
    Iteration(1, 1, Some(version), None, true)
  }

  lemma NothingToCopy(s: Id, n: Id)
    ensures LayerCopy(EMPTY_LAYER, s, EMPTY_LAYER, n, EMPTY_LAYER, Renaming(map[], map[], map[]))
    ensures ClearScope(EMPTY_LAYER, s) == EMPTY_LAYER
  {
    assert InScope(EMPTY_LAYER, s) == {};
  }

  lemma IdleStarts(version: string, text: Option<string>, its: map<Id, Iteration>, n: Id, next: Id)
    requires next == n + 1 && forall i | i in its :: its[i].committed
    ensures Step(Idle(version, text, its, n), Starting(1, 1), Success(n), Idle(version, text, its[n := Open()], next))
  {
    NothingToCopy(1, n);
    var db, db' := Idle(version, text, its, n), Idle(version, text, its[n := Open()], next);
    assert Started(db, 1, 1, db', Renaming(map[], map[], map[]));
  }

  lemma IdleCommits(current: string, text: Option<string>, its: map<Id, Iteration>, n: Id, next: Id, version: string)
    requires version != current && n !in its
    ensures Step(Idle(current, text, its[n := Open()], next), Committing(n, version, 1), Done,
                 Idle(version, None, its[n := Closed(version)], next))
    ensures Publishes(Idle(current, text, its[n := Open()], next), Committing(n, version, 1), Done, 1, n)
  {
    NothingToCopy(1, n);
    NothingToCopy(n, 1);
    var db, db' := Idle(current, text, its[n := Open()], next), Idle(version, None, its[n := Closed(version)], next);
    assert its[n := Open()][n := Closed(version)] == its[n := Closed(version)];
    assert Committed(db, n, version, db', Renaming(map[], map[], map[]));
  }

  function FreshDb(): Db {
    Db(map[], map[], map[], 1, map[], 1, EMPTY_LAYER, EMPTY_LAYER)
  }

  lemma FirstStep(text: Option<string>)
    ensures Step(FreshDb(), CreatingService("s", 1, text), Success(1), Idle("0.0.1", text, map[], 1))
  {
  }

  lemma PassedRunExtends(states: seq<Db>, events: seq<Event>, e: Event, db': Db, s: Id)
    requires PassedRun(states, events, s)
    requires Step(states[|events|], e.action, e.response, db') && Passed(states[|events|], e.action, e.response, s)
    ensures PassedRun(states + [db'], events + [e], s)
  {
    RunExtends(states, events, e, db');
    var states', events' := states + [db'], events + [e];
    forall k: nat | k < |events'| ensures Passed(states'[k], events'[k].action, events'[k].response, s) {
      assert k < |events| ==> Passed(states[k], events[k].action, events[k].response, s);
    }
  }

  /** A service is created. */
  lemma Opening(text: Option<string>) returns (states: seq<Db>, events: seq<Event>)
    ensures PassedRun(states, events, 1) && |events| == 1 && states[1] == Idle("0.0.1", text, map[], 1)
  {
    FirstStep(text);
    var create := Event(CreatingService("s", 1, text), Success(1));
    PassedRunExtends([FreshDb()], [], create, Idle("0.0.1", text, map[], 1), 1);
    states, events := [FreshDb()] + [Idle("0.0.1", text, map[], 1)], [] + [create];
  }

  /** One more iteration, started and committed as `version`. */
  lemma Round(states: seq<Db>, events: seq<Event>, current: string, text: Option<string>, its: map<Id, Iteration>,
              n: Id, next: Id, version: string) returns (states': seq<Db>, events': seq<Event>)
    requires PassedRun(states, events, 1) && states[|events|] == Idle(current, text, its, n)
    requires next == n + 1 && n !in its && forall i | i in its :: its[i].committed
    requires version != current && FormPasses(current, version)
    ensures PassedRun(states', events', 1)
    ensures events' == events + [Event(Starting(1, 1), Success(n)), Event(Committing(n, version, 1), Done)]
    ensures states'[..|states|] == states
    ensures states'[|states|] == Idle(current, text, its[n := Open()], next)
    ensures states'[|events'|] == Idle(version, None, its[n := Closed(version)], next)
  {
    var begun, closed :=
      Idle(current, text, its[n := Open()], next), Idle(version, None, its[n := Closed(version)], next);
    var start, commit := Event(Starting(1, 1), Success(n)), Event(Committing(n, version, 1), Done);
    IdleStarts(current, text, its, n, next);
    IdleCommits(current, text, its, n, next, version);
    PassedRunExtends(states, events, start, begun, 1);
    PassedRunExtends(states + [begun], events + [start], commit, closed, 1);
    states', events' := states + [begun] + [closed], events + [start] + [commit];
  }

  lemma TwoSpellings()
    ensures IsVersion("0.0.1") && IsVersion("0.0.01") && Accepts("0.0.1", "0.0.01") && Accepts("0.0.01", "0.0.1")
  {
    LeadingZeroRepeats("0", "0", "1");
    ThreeParts("0", "0", "1");
    ThreeParts("0", "0", "01");
    assert "0" + "." + "0" + "." + "1" == "0.0.1" && "0" + "." + "0" + ".0" + "1" == "0.0.01";
    assert "0" + "." + "0" + "." + "01" == "0.0.01";
  }

  /** Passing the form is not enough for distinct versions: respelling the current version passes, and so does going
      back. The version 0.0.1 that the service starts with is published in between. */
  lemma SameVersionTwice() returns (states: seq<Db>, events: seq<Event>, i: Id, j: Id, first: Id)
    ensures PassedRun(states, events, 1)
    ensures var its := states[|events|].iterations;
      && i != j && i in its && j in its && its[i].service == its[j].service == 1
      && its[i].committed && its[j].committed && its[i].version == its[j].version
      && first in its && its[first].service == 1 && its[first].version == Some("0.0.1")
  {
    TwoSpellings();
    states, events := Opening(None);
    states, events := Round(states, events, "0.0.1", None, map[], 1, 2, "0.0.01");
    var a := map[1 := Closed("0.0.01")];
    states, events := Round(states, events, "0.0.01", None, a, 2, 3, "0.0.1");
    var b := a[2 := Closed("0.0.1")];
    states, events := Round(states, events, "0.0.1", None, b, 3, 4, "0.0.01");
    i, j, first := 1, 3, 2;
  }

  /** Starting an iteration and committing it right away takes a service's description away. */
  lemma DescriptionIsLost(text: string) returns (states: seq<Db>, events: seq<Event>)
    ensures Run(states, events) && |events| == 3
    ensures Opens(events, 1, 1, 1) && Publishes(states[2], events[2].action, events[2].response, 1, 1)
    ensures 1 in states[1].services && states[1].services[1].description == Some(text)
    ensures 1 in states[3].services && states[3].services[1].description == None
  {
    TwoSpellings();
    states, events := Opening(Some(text));
    var before := states;
    states, events := Round(states, events, "0.0.1", Some(text), map[], 1, 2, "0.0.01");
    assert states[1] == before[1];
    IdleCommits("0.0.1", Some(text), map[], 1, 2, "0.0.01");
  }
}
