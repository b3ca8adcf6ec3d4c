/** From an update through a commit to the fetch of the live API: the same trees in the same order, where rows are read
    in key order. */
module PublishedTrees {
  import opened Model
  import opened Forests
  import opened Tables
  import opened Codec
  import opened ParamTables
  import opened Catalog
  import opened Actions
  import opened Frames
  import opened Fetching
  import opened RoundTrips
  import opened FetchCopies
  import opened Resaving
  import opened Runs

  // ---- copies made in key order ----

  predicate KeyOrderAt(t: Table, o: Id, m: map<Id, Id>, x: Id, y: Id) {
    x in m && y in m && x in t.rows && y in t.rows && t.rows[x].owner == t.rows[y].owner == o && x < y ==> m[x] < m[y]
  }

  /** The copies of the rows of `o` have their keys in the order of the originals. */
  ghost predicate KeepsKeyOrder(t: Table, o: Id, m: map<Id, Id>) {
    forall x, y {:trigger KeyOrderAt(t, o, m, x, y)} :: KeyOrderAt(t, o, m, x, y)
  }

  predicate Rising(order: seq<Id>) {
    forall i, j | 0 <= i < j < |order| :: order[i] < order[j]
  }

  /** Reading the rows in key order makes a copy that keeps key order. */
  lemma RisingKeepsKeyOrder(t: Table, o: Id, order: seq<Id>, m: map<Id, Id>)
    requires Reads(order, OwnedIds(t, {o})) && Rising(order) && Follows(order, m)
    ensures KeepsKeyOrder(t, o, m)
  {
    forall x, y ensures KeyOrderAt(t, o, m, x, y) {
      if x in OwnedIds(t, {o}) && y in OwnedIds(t, {o}) && x < y {
        assert x in Elements(order) && y in Elements(order);
        var i :| 0 <= i < |order| && order[i] == x;
        var j :| 0 <= j < |order| && order[j] == y;
        assert i < j;
      }
    }
  }

  // ---- one API ----

  function CopyRows(a: seq<Rec>, after: Table, m: map<Id, Id>): seq<Rec>
    requires forall r | r in a :: r.id in m && m[r.id] in after.rows
  {
    seq(|a|, i requires 0 <= i < |a| => Rec(m[a[i].id], after.rows[m[a[i].id]]))
  }

  lemma RowsAreCopied(src: Table, owners: map<Id, Id>, before: Table, after: Table, m: map<Id, Id>, x: Id, a: seq<Rec>)
    requires TableCopy(src, owners, before, after, m) && x in owners && Lists(a, src, x)
    ensures forall r | r in a :: r.id in m && m[r.id] in after.rows && Copied(r.row, after.rows[m[r.id]], owners, m)
  {
    forall r | r in a ensures r.id in m && m[r.id] in after.rows && Copied(r.row, after.rows[m[r.id]], owners, m) {
      assert r.id in OwnedIds(src, owners.Keys);
      assert CopiedAt(src, owners, after, m, r.id);
    }
  }

  /** Row by row, the copies of the rows of `x`. */
  lemma CopiedRowsCorrespond(src: Table, owners: map<Id, Id>, before: Table, after: Table, m: map<Id, Id>, x: Id,
                             a: seq<Rec>)
    returns (b: seq<Rec>)
    requires 0 < before.next && TableCopy(src, owners, before, after, m) && x in owners && Lists(a, src, x)
    requires forall i | i in src.rows :: 0 < i
    ensures forall r | r in a :: r.id in m && m[r.id] in after.rows
    ensures b == CopyRows(a, after, m) && CopyList(a, b, owners, m)
    ensures forall r | r in b :: r.id in after.rows && after.rows[r.id] == r.row && r.row.owner == owners[x]
  {
    RowsAreCopied(src, owners, before, after, m, x, a);
    b := CopyRows(a, after, m);
    forall i: nat ensures CopyRowAt(a, b, owners, m, i) {
      assert i < |a| ==> a[i] in a;
    }
    forall y | y in m ensures 0 < y && 0 < m[y] {
      assert y in OwnedIds(src, owners.Keys);
    }
    forall r | r in b ensures r.id in after.rows && after.rows[r.id] == r.row && r.row.owner == owners[x] {
      var i :| 0 <= i < |b| && b[i] == r;
      assert a[i] in a;
    }
  }

  lemma CopiedRowsList(src: Table, owners: map<Id, Id>, before: Table, beforeOwners: set<Id>, after: Table,
                       m: map<Id, Id>, x: Id, a: seq<Rec>) returns (b: seq<Rec>)
    requires TableOk(before, beforeOwners) && TableCopy(src, owners, before, after, m) && Injective(owners)
    requires x in owners && owners[x] !in beforeOwners && Lists(a, src, x)
    requires forall i | i in src.rows :: 0 < i
    ensures Lists(b, after, owners[x]) && CopyList(a, b, owners, m)
    ensures |b| == |a| && forall i | 0 <= i < |a| :: a[i].id in m && b[i].id == m[a[i].id]
  {
    b := CopiedRowsCorrespond(src, owners, before, after, m, x, a);
    CopyListDistinct(a, b, owners, m);
    forall i | i in after.rows && after.rows[i].owner == owners[x] ensures Rec(i, after.rows[i]) in b {
      OriginOfCopy(src, owners, before, beforeOwners, after, m, x, i, a, b);
    }
    forall i | 0 <= i < |a| ensures a[i].id in m && b[i].id == m[a[i].id] {
      assert a[i] in a;
    }
  }

  lemma OriginOfCopy(src: Table, owners: map<Id, Id>, before: Table, beforeOwners: set<Id>, after: Table,
                     m: map<Id, Id>, x: Id, i: Id, a: seq<Rec>, b: seq<Rec>)
    requires TableOk(before, beforeOwners) && TableCopy(src, owners, before, after, m) && Injective(owners)
    requires x in owners && owners[x] !in beforeOwners && Lists(a, src, x)
    requires i in after.rows && after.rows[i].owner == owners[x]
    requires forall r | r in a :: r.id in m && m[r.id] in after.rows
    requires b == CopyRows(a, after, m)
    ensures Rec(i, after.rows[i]) in b
  {
    assert i !in before.rows;
    var y :| y in m && m[y] == i;
    assert CopiedAt(src, owners, after, m, y);
    assert InjectiveAt(owners, src.rows[y].owner, x);
    var k :| 0 <= k < |a| && a[k] == Rec(y, src.rows[y]);
    assert b[k] == Rec(i, after.rows[i]);
  }

  /** Original and copy, both fetched in key order, are the same trees. */
  lemma CopyFetchesSame(src: Table, owners: map<Id, Id>, before: Table, beforeOwners: set<Id>, after: Table,
                        m: map<Id, Id>, x: Id, a: seq<Rec>, b: seq<Rec>, k: Key, f: Forest<Rec>, g: Forest<Rec>)
    requires TableOk(before, beforeOwners) && TableCopy(src, owners, before, after, m) && Injective(owners)
    requires x in owners && owners[x] !in beforeOwners && KeepsKeyOrder(src, x, m) && forall i | i in src.rows :: 0 < i
    requires Lists(a, src, x) && Ascending(a) && Lists(b, after, owners[x]) && Ascending(b)
    requires Represents(a, RootIds(a, k), f) && Represents(b, RootIds(b, k), g)
    ensures Payloads(g) == Payloads(f)
  {
    var c := CopiedRowsList(src, owners, before, beforeOwners, after, m, x, a);
    forall i, j | 0 <= i < j < |c| ensures c[i].id < c[j].id {
      assert a[i] in a && a[j] in a;
      assert KeyOrderAt(src, x, m, a[i].id, a[j].id);
    }
    ListsAgree(c, b, after, owners[x]);
    AscendingIsUnique(c, b);
    CopyListFetchesSame(a, b, owners, m, k, f, g);
  }

  // ---- a scope ----

  function RenamingOf(m: Renaming, side: Side): map<Id, Id> {
    match side
    case Request => m.req
    case Response => m.resp
  }

  lemma LayerCopyFetchesSame(src: Layer, srcScopes: set<Id>, s: Id, before: Layer, scopes: set<Id>, n: Id, after: Layer,
                             m: Renaming, side: Side, x: Id, a: seq<Rec>, b: seq<Rec>, k: Key, f: Forest<Rec>,
                             g: Forest<Rec>)
    requires LayerOk(src, srcScopes) && LayerOk(before, scopes) && LayerCopy(src, s, before, n, after, m) && x in m.api
    requires KeepsKeyOrder(TableOf(src, side), x, RenamingOf(m, side))
    requires Lists(a, TableOf(src, side), x) && Ascending(a)
    requires Lists(b, TableOf(after, side), m.api[x]) && Ascending(b)
    requires Represents(a, RootIds(a, k), f) && Represents(b, RootIds(b, k), g)
    ensures Payloads(g) == Payloads(f)
  {
    CopyFetchesSame(TableOf(src, side), m.api, TableOf(before, side), before.apis.Keys, TableOf(after, side),
                    RenamingOf(m, side), x, a, b, k, f, g);
  }

  // ---- a run ----

  lemma ListsSamePart(l: Layer, l': Layer, s: Id, x: Id, side: Side, rows: seq<Rec>)
    requires PartOf(l, s) == PartOf(l', s) && x in l.apis && l.apis[x].scope == s
    requires Lists(rows, TableOf(l, side), x)
    ensures x in l'.apis && l'.apis[x].scope == s && Lists(rows, TableOf(l', side), x)
  {
    var t, t' := TableOf(l, side), TableOf(l', side);
    assert x in PartOf(l, s).apis && x in PartOf(l', s).apis;
    assert x in InScope(l, s) && x in InScope(l', s);
    assert RowsOwned(t, InScope(l, s)) == RowsOwned(t', InScope(l', s));
    forall i | i in t.rows && t.rows[i].owner == x ensures i in t'.rows && t'.rows[i] == t.rows[i] {
      assert i in RowsOwned(t, InScope(l, s));
    }
    forall i | i in t'.rows && t'.rows[i].owner == x ensures i in t.rows && t.rows[i] == t'.rows[i] {
      assert i in RowsOwned(t', InScope(l', s));
    }
  }

  /** The drafts of an updated API are still the laid-out rows when its iteration is committed later without another
      request. */
  lemma UpdatedRowsWait(states: seq<Db>, events: seq<Event>, i: nat, j: nat, it: Id, side: Side)
    returns (rows: seq<Rec>)
    requires Run(states, events) && i < j < |events|
    requires events[i].action.Updating? && events[i].action.it == it && events[i].response == Done
    requires forall k: nat | i < k < j :: Target(events[k].action) != Some(it)
    ensures var draft := events[i].action.draft;
      && draft in states[j].draft.apis && states[j].draft.apis[draft].scope == it
      && Lists(rows, TableOf(states[j].draft, side), draft) && Ascending(rows)
      && Lists(rows, TableOf(states[i + 1].draft, side), draft)
  {
    var a := events[i].action;
    RunIsOk(states, events, i);
    UpdatedTable(states, events, i, side);
    UpdatedDraft(states, events, i);
    RewrittenLists(TableOf(states[i].draft, side), states[i].draft.apis.Keys, a.draft, InputsOf(a, side), side);
    rows := Laid(Normal(InputsOf(a, side), Missing, side), a.draft, None, TableOf(states[i].draft, side).next);
    DraftsWait(states, events, i + 1, j, it);
    ListsSamePart(states[i + 1].draft, states[j].draft, it, a.draft, side, rows);
  }

  lemma UpdatedDraft(states: seq<Db>, events: seq<Event>, i: nat)
    requires Run(states, events) && i < |events| && events[i].action.Updating? && events[i].response == Done
    ensures var a := events[i].action;
      && a.it in states[i + 1].iterations
      && a.draft in states[i + 1].draft.apis && states[i + 1].draft.apis[a.draft].scope == a.it
  {
    assert StepAt(states, events, i);
  }

  /**
   * An update, then a commit of the iteration without another request to it: fetching the live API in key order gives,
   * for each location or status code, the trees of the normal form of the input that was sent, in their order. The
   * commit read the draft's rows in key order.
   */
  lemma PublishedAsSent(states: seq<Db>, events: seq<Event>, i: nat, j: nat, s: Id, it: Id, m: Renaming, side: Side,
                        rows: seq<Rec>, k: Key, f: Forest<Rec>)
    requires Run(states, events) && i < j < |events|
    requires events[i].action.Updating? && events[i].action.it == it && events[i].response == Done
    requires forall k: nat | i < k < j :: Target(events[k].action) != Some(it)
    requires Publishes(states[j], events[j].action, events[j].response, s, it) && s in states[j].services
    requires Committed(states[j], it, events[j].action.version, states[j + 1], m)
    requires var draft := events[i].action.draft;
      && KeepsKeyOrder(TableOf(states[j].draft, side), draft, RenamingOf(m, side))
      && (draft in m.api ==> Lists(rows, TableOf(states[j + 1].live, side), m.api[draft])) && Ascending(rows)
    requires Represents(rows, RootIds(rows, k), f)
    ensures events[i].action.draft in m.api
    ensures Payloads(f) == Group(Normal(InputsOf(events[i].action, side), Missing, side), k)
  {
    var db, a := states[j], events[i].action;
    var sent := UpdatedRowsWait(states, events, i, j, it, side);
    assert a.draft in InScope(db.draft, it);
    RunIsOk(states, events, i);
    RunIsOk(states, events, i + 1);
    RunIsOk(states, events, j);
    var f0 := GroupExists(TableOf(db.draft, side), db.draft.apis.Keys, a.draft, sent, k);
    UpdatedTable(states, events, i, side);
    UpdateThenFetch(TableOf(states[i].draft, side), states[i].draft.apis.Keys, a.draft, InputsOf(a, side), side, sent,
      k, f0);
    ClearedLayer(db.live, db.services.Keys, s);
    LayerCopyFetchesSame(db.draft, db.iterations.Keys, it, ClearScope(db.live, s), db.services.Keys, s,
      states[j + 1].live,
                         m, side, a.draft, sent, rows, k, f0, f);
  }
}
