/** Opening the form on stored parameters and saving it unedited: fetch, transform, update, fetch again. */
module Resaving {
  import opened Model
  import opened Forests
  import opened Tables
  import opened Codec
  import opened Catalog
  import opened Actions
  import opened Invariants
  import opened Fetching
  import opened RoundTrips
  import opened EditForm
  import opened Sides
  import opened Runs

  // ---- what fetched trees look like ----

  /** In trees fetched from a well-formed table, children occur only below expandable parameters. */
  lemma {:induction false} FetchedIsPruned(t: Table, owners: set<Id>, owner: Id, rows: seq<Rec>, ids: seq<Id>,
                                           f: Forest<Rec>)
    requires TableOk(t, owners) && Lists(rows, t, owner) && Represents(rows, ids, f)
    ensures Pruned(Payloads(f))
    decreases f
  {
    match f
    case Empty =>
    case Tree(r, kids, rest) =>
      FetchedIsPruned(t, owners, owner, rows, ChildIds(rows, r.id), kids);
      FetchedIsPruned(t, owners, owner, rows, ids[1..], rest);
      if kids.Tree? {
        ChildIdsAre(rows, r.id);
        assert kids.root.id in ChildIds(rows, r.id);
        var c :| c in rows && c.id == kids.root.id && IsChild(c, r.id);
        assert ParentOkAt(t.rows, c.id);
      }
  }

  lemma {:induction false} FetchedIsSided(t: Table, side: Side, owner: Id, rows: seq<Rec>, ids: seq<Id>, f: Forest<Rec>)
    requires Sided(t.rows, side) && Lists(rows, t, owner) && Represents(rows, ids, f)
    ensures SidedForest(Payloads(f), side)
    decreases f
  {
    match f
    case Empty =>
    case Tree(r, kids, rest) =>
      assert SidedAt(t.rows, side, r.id);
      FetchedIsSided(t, side, owner, rows, ChildIds(rows, r.id), kids);
      FetchedIsSided(t, side, owner, rows, ids[1..], rest);
  }

  // ---- the form ----

  /** The form holds, for every location or status code, the trees fetched from the rows. */
  ghost predicate FormOf(rows: seq<Rec>, entries: seq<Entry>, side: Side) {
    && DistinctKeys(entries, side)
    && forall k, f | SideOf(k) == side && Represents(rows, RootIds(rows, k), f) :: ItemsFor(entries, k) == Payloads(f)
  }

  lemma {:induction false} ItemsAt(entries: seq<Entry>, side: Side, i: nat)
    requires DistinctKeys(entries, side) && i < |entries|
    ensures ItemsFor(entries, entries[i].key) == entries[i].items
  {
    if i != 0 {
      ItemsAt(entries[1..], side, i - 1);
    }
  }

  lemma {:induction false} NoItems(entries: seq<Entry>, k: Key)
    requires forall i | 0 <= i < |entries| :: entries[i].key != k
    ensures ItemsFor(entries, k) == Empty
  {
    if entries != [] {
      NoItems(entries[1..], k);
    }
  }

  lemma GroupExists(t: Table, owners: set<Id>, owner: Id, rows: seq<Rec>, k: Key) returns (f: Forest<Rec>)
    requires TableOk(t, owners) && Lists(rows, t, owner)
    ensures Represents(rows, RootIds(rows, k), f)
  {
    var rank: map<Id, nat>, bound: nat :| Ranked(t.rows, rank, bound);
    RootIdsAre(rows, k);
    f := ForestExists(t, owners, owner, rows, rank, bound, RootIds(rows, k), 0);
  }

  ghost predicate EntryOf(rows: seq<Rec>, e: Entry, side: Side) {
    SideOf(e.key) == side && exists f :: Represents(rows, RootIds(rows, e.key), f) && e.items == Payloads(f)
  }

  lemma {:induction false} EntriesExist(t: Table, owners: set<Id>, owner: Id, rows: seq<Rec>, side: Side,
                                        keys: seq<Key>)
    returns (entries: seq<Entry>)
    requires TableOk(t, owners) && Lists(rows, t, owner) && forall k | k in keys :: SideOf(k) == side
    ensures |entries| == |keys|
    ensures forall i | 0 <= i < |keys| :: entries[i].key == keys[i] && EntryOf(rows, entries[i], side)
  {
    if keys == [] {
      entries := [];
    } else {
      var f := GroupExists(t, owners, owner, rows, keys[0]);
      var e := Entry(keys[0], Payloads(f));
      assert EntryOf(rows, e, side);
      var rest := EntriesExist(t, owners, owner, rows, side, keys[1..]);
      entries := [e] + rest;
      forall i | 0 <= i < |keys| ensures entries[i].key == keys[i] && EntryOf(rows, entries[i], side) {
        assert i > 0 ==> entries[i] == rest[i - 1] && keys[i] == keys[1..][i - 1];
      }
    }
  }

  lemma RootKeysSided(t: Table, owner: Id, rows: seq<Rec>, side: Side, k: Key)
    requires Lists(rows, t, owner) && Sided(t.rows, side) && k in RootKeys(rows)
    ensures SideOf(k) == side
  {
    RootKeysAre(rows);
    RootIdsAre(rows, k);
    assert RootIds(rows, k)[0] in RootIds(rows, k);
    var r :| r in rows && r.id == RootIds(rows, k)[0] && IsRoot(r, k);
    assert SidedAt(t.rows, side, r.id);
  }

  /** The rows of every API fill a form. */
  lemma FormExists(t: Table, owners: set<Id>, owner: Id, rows: seq<Rec>, side: Side) returns (entries: seq<Entry>)
    requires TableOk(t, owners) && Sided(t.rows, side) && Lists(rows, t, owner)
    ensures FormOf(rows, entries, side)
  {
    var keys := RootKeys(rows);
    RootKeysAre(rows);
    forall k | k in keys ensures SideOf(k) == side {
      RootKeysSided(t, owner, rows, side, k);
    }
    entries := EntriesExist(t, owners, owner, rows, side, keys);
    assert DistinctKeys(entries, side);
    forall k, f | SideOf(k) == side && Represents(rows, RootIds(rows, k), f)
      ensures ItemsFor(entries, k) == Payloads(f)
    {
      if k in keys {
        var i :| 0 <= i < |keys| && keys[i] == k;
        ItemsAt(entries, side, i);
        assert EntryOf(rows, entries[i], side);
        var g :| Represents(rows, RootIds(rows, k), g) && entries[i].items == Payloads(g);
        RepresentsIsUnique(rows, RootIds(rows, k), f, g);
      } else {
        NoItems(entries, k);
        assert f == Empty;
      }
    }
  }

  // ---- saving it unedited ----

  predicate NoEmptyDefaults(f: Forest<Payload>) {
    match f
    case Empty => true
    case Tree(p, kids, rest) => p.defaultValue != Some("") && NoEmptyDefaults(kids) && NoEmptyDefaults(rest)
  }

  lemma {:induction false} TidyIff(f: Forest<Payload>, k: Key)
    requires Pruned(f) && SidedForest(f, SideOf(k))
    ensures Tidy(f, k) <==> Uniform(f, k) && NoEmptyDefaults(f)
  {
    match f
    case Empty =>
    case Tree(_, kids, rest) =>
      TidyIff(kids, k);
      TidyIff(rest, k);
  }

  /** Where a group has one key throughout, saving only turns empty default values into null. */
  lemma {:induction false} SavingNullsDefaultsIff(f: Forest<Payload>, k: Key)
    requires Pruned(f) && SidedForest(f, SideOf(k))
    ensures Resaved(f, k) == NullDefaults(f) <==> Uniform(f, k)
  {
    match f
    case Empty =>
    case Tree(_, kids, rest) =>
      SavingNullsDefaultsIff(kids, k);
      SavingNullsDefaultsIff(rest, k);
  }

  /**
   * Fetch, save unedited, fetch again. The trees of a group are the same if and only if the group has one location or
   * status code throughout and no empty default value; up to empty defaults becoming null, exactly when it has one
   * throughout.
   */
  lemma UneditedSaveIff(t: Table, owners: set<Id>, draft: Id, side: Side, rows0: seq<Rec>, entries: seq<Entry>,
                        rows1: seq<Rec>, k: Key, f0: Forest<Rec>, f1: Forest<Rec>)
    requires TableOk(t, owners) && Sided(t.rows, side) && SideOf(k) == side
    requires Lists(rows0, t, draft) && FormOf(rows0, entries, side) && Represents(rows0, RootIds(rows0, k), f0)
    requires Lists(rows1, Rewritten(t, draft, AllInputs(entries), side), draft) && Ascending(rows1)
    requires Represents(rows1, RootIds(rows1, k), f1)
    ensures Payloads(f1) == Payloads(f0) <==> Uniform(Payloads(f0), k) && NoEmptyDefaults(Payloads(f0))
    ensures Payloads(f1) == NullDefaults(Payloads(f0)) <==> Uniform(Payloads(f0), k)
  {
    SaveThenFetch(t, owners, draft, entries, side, rows1, k, f1);
    FetchedIsPruned(t, owners, draft, rows0, RootIds(rows0, k), f0);
    FetchedIsSided(t, side, draft, rows0, RootIds(rows0, k), f0);
    SavingIsFixpointIff(Payloads(f0), k);
    TidyIff(Payloads(f0), k);
    SavingNullsDefaultsIff(Payloads(f0), k);
  }

  /** Saving twice: the second save changes nothing, whatever the form held the first time. */
  lemma SecondSaveChangesNothing(t: Table, owners: set<Id>, draft: Id, side: Side, edited: seq<Entry>, rows1: seq<Rec>,
                                 entries: seq<Entry>, rows2: seq<Rec>, k: Key, f1: Forest<Rec>, f2: Forest<Rec>)
    requires TableOk(t, owners) && draft in owners && SideOf(k) == side && DistinctKeys(edited, side)
    requires var t1 := Rewritten(t, draft, AllInputs(edited), side);
      && Lists(rows1, t1, draft) && Ascending(rows1) && FormOf(rows1, entries, side)
      && Lists(rows2, Rewritten(t1, draft, AllInputs(entries), side), draft) && Ascending(rows2)
    requires Represents(rows1, RootIds(rows1, k), f1) && Represents(rows2, RootIds(rows2, k), f2)
    ensures Payloads(f2) == Payloads(f1)
  {
    var t1 := Rewritten(t, draft, AllInputs(edited), side);
    RewrittenOk(t, owners, draft, AllInputs(edited), side);
    SaveThenFetch(t, owners, draft, edited, side, rows1, k, f1);
    SaveThenFetch(t1, owners, draft, entries, side, rows2, k, f2);
    SavedIsTidy(ItemsFor(edited, k), k);
    SavingIsFixpointIff(Payloads(f1), k);
  }

  // ---- parameters that came through the API ----

  lemma {:induction false} GroupHasOneKey(f: Forest<Input>, side: Side, k: Key)
    requires OneKeyTrees(f, side)
    ensures Uniform(Group(Normal(f, Missing, side), k), k)
  {
    match f
    case Empty =>
    case Tree(x, kids, rest) =>
      GroupHasOneKey(rest, side, k);
      if side == Request {
        TruthyLocationIsInherited(kids, HandedDown(x, Missing));
      } else {
        SharesStatusIff(kids, HandedDown(x, Missing), StatusOf(x));
      }
  }

  /** Parameters given with a location at every root, or with one status code in every tree, survive an unedited save
      up to empty default values becoming null. */
  lemma UneditedSaveAfterUpdate(t: Table, owners: set<Id>, draft: Id, side: Side, params: Forest<Input>,
                                rows0: seq<Rec>, entries: seq<Entry>, rows1: seq<Rec>, k: Key, f0: Forest<Rec>,
                                f1: Forest<Rec>)
    requires TableOk(t, owners) && draft in owners && Sided(t.rows, side) && SideOf(k) == side
      && OneKeyTrees(params, side)
    requires var t0 := Rewritten(t, draft, params, side);
      && Lists(rows0, t0, draft) && Ascending(rows0) && FormOf(rows0, entries, side)
      && Lists(rows1, Rewritten(t0, draft, AllInputs(entries), side), draft) && Ascending(rows1)
    requires Represents(rows0, RootIds(rows0, k), f0) && Represents(rows1, RootIds(rows1, k), f1)
    ensures Payloads(f1) == NullDefaults(Payloads(f0))
  {
    var t0 := Rewritten(t, draft, params, side);
    RewrittenOk(t, owners, draft, params, side);
    RewrittenKeepsSided(t, draft, params, side);
    UpdateThenFetch(t, owners, draft, params, side, rows0, k, f0);
    GroupHasOneKey(params, side, k);
    UneditedSaveIff(t0, owners, draft, side, rows0, entries, rows1, k, f0, f1);
  }

  // ---- in a run ----

  function TableOf(l: Layer, side: Side): Table {
    match side
    case Request => l.req
    case Response => l.resp
  }

  function InputsOf(a: Action, side: Side): Forest<Input>
    requires a.Updating?
  {
    match side
    case Request => a.req
    case Response => a.resp
  }

  /** The same at any point of any run: an update request that sends the form as it was fetched. */
  lemma UneditedSaveInRun(states: seq<Db>, events: seq<Event>, n: nat, side: Side, rows0: seq<Rec>, entries: seq<Entry>,
                          rows1: seq<Rec>, k: Key, f0: Forest<Rec>, f1: Forest<Rec>)
    requires Run(states, events) && n < |events| && events[n].action.Updating? && events[n].response == Done
    requires SideOf(k) == side && InputsOf(events[n].action, side) == AllInputs(entries)
    requires Lists(rows0, TableOf(states[n].draft, side), events[n].action.draft) && FormOf(rows0, entries, side)
    requires Lists(rows1, TableOf(states[n + 1].draft, side), events[n].action.draft) && Ascending(rows1)
    requires Represents(rows0, RootIds(rows0, k), f0) && Represents(rows1, RootIds(rows1, k), f1)
    ensures Payloads(f1) == Payloads(f0) <==> Uniform(Payloads(f0), k) && NoEmptyDefaults(Payloads(f0))
    ensures Payloads(f1) == NullDefaults(Payloads(f0)) <==> Uniform(Payloads(f0), k)
  {
    var db, a := states[n], events[n].action;
    RunIsOk(states, events, n);
    RunIsSided(states, events, n);
    UpdatedTable(states, events, n, side);
    UneditedSaveIff(TableOf(db.draft, side), db.draft.apis.Keys, a.draft, side, rows0, entries, rows1, k, f0, f1);
  }

  lemma UpdatedTable(states: seq<Db>, events: seq<Event>, n: nat, side: Side)
    requires Run(states, events) && n < |events| && events[n].action.Updating? && events[n].response == Done
    ensures var a := events[n].action;
      TableOf(states[n + 1].draft, side) == Rewritten(TableOf(states[n].draft, side), a.draft, InputsOf(a, side), side)
  {
    assert StepAt(states, events, n);
  }
}
