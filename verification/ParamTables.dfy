/** A parameter table of the database, changed in place, and the procedures that fill and copy it. */
module ParamTables {
  import opened Model
  import opened Forests
  import opened Tables
  import opened Descent
  import opened Codec
  import opened Sequences

  /** Every parent of a row of `owner` is itself a row of `owner`. */
  predicate ParentsInside(t: Table, owner: Id) {
    forall i | i in t.rows && t.rows[i].owner == owner && t.rows[i].parent.Some? ::
      t.rows[i].parent.value in OwnedIds(t, {owner})
  }

  lemma OkMeansParentsInside(t: Table, owners: set<Id>, owner: Id)
    requires TableOk(t, owners)
    ensures ParentsInside(t, owner)
  {
    forall i | i in t.rows && t.rows[i].owner == owner && t.rows[i].parent.Some?
      ensures t.rows[i].parent.value in OwnedIds(t, {owner})
    {
      assert ParentOkAt(t.rows, i);
    }
  }

  /** Row `x` has been copied without its parent. */
  predicate PlacedAt(src: map<Id, Row>, newOwner: Id, t: Table, idMap: map<Id, Id>, x: Id) {
    && x in idMap && x in src && idMap[x] in t.rows
    && t.rows[idMap[x]] == Row(newOwner, None, src[x].payload)
  }

  ghost predicate Placed(src: map<Id, Row>, owned: set<Id>, newOwner: Id, before: Table, t: Table, idMap: map<Id, Id>) {
    && idMap.Keys == owned
    && Injective(idMap)
    && before.next <= t.next
    && (forall x | x in idMap :: before.next <= idMap[x] < t.next)
    && t.rows.Keys == before.rows.Keys + idMap.Values
    && (forall i | i in before.rows :: t.rows[i] == before.rows[i])
    && (forall x {:trigger PlacedAt(src, newOwner, t, idMap, x)} | x in owned :: PlacedAt(src, newOwner, t, idMap, x))
  }

  lemma PlaceStep(src: map<Id, Row>, owned: set<Id>, newOwner: Id, before: Table, t: Table, idMap: map<Id, Id>, x: Id)
    requires Placed(src, owned, newOwner, before, t, idMap)
    requires x in src && x !in owned && forall i | i in t.rows :: i < t.next
    ensures Placed(src, owned + {x}, newOwner, before, Tables.Insert(t, Row(newOwner, None, src[x].payload)),
      idMap[x := t.next])
  {
    var t' := Tables.Insert(t, Row(newOwner, None, src[x].payload));
    RenamingGrows(x, t.next, idMap);
    forall y | y in owned + {x}
      ensures PlacedAt(src, newOwner, t', idMap[x := t.next], y)
    {
      if y != x {
        assert PlacedAt(src, newOwner, t, idMap, y);
      }
    }
  }

  // ---- the order in which rows are read ----

  function Elements(order: seq<Id>): set<Id> {
    set x | x in order
  }

  /** The list holds each of the rows once. */
  ghost predicate Reads(order: seq<Id>, owned: set<Id>) {
    NoRepeats(order) && Elements(order) == owned
  }

  /** Rows read later get larger keys. */
  ghost predicate Follows(order: seq<Id>, m: map<Id, Id>) {
    && (forall x | x in order :: x in m)
    && forall i, j | 0 <= i < j < |order| :: m[order[i]] < m[order[j]]
  }

  lemma ReadsNext(order: seq<Id>, owned: set<Id>, x: Id)
    requires Reads(order, owned) && x !in owned
    ensures Reads(order + [x], owned + {x})
  {
    forall i | 0 <= i < |order| ensures order[i] != x {
      assert order[i] in Elements(order);
    }
  }

  lemma ElementsNext(order: seq<Id>, n: nat)
    requires n < |order| && NoRepeats(order)
    ensures Elements(order[..n + 1]) == Elements(order[..n]) + {order[n]} && order[n] !in Elements(order[..n])
  {
    assert order[..n + 1] == order[..n] + [order[n]];
  }

  lemma RemainingNext(order: seq<Id>, n: nat)
    requires n < |order| && NoRepeats(order)
    ensures Elements(order[n + 1..]) == Elements(order[n..]) - {order[n]} && order[n] in Elements(order[n..])
    ensures Elements(order[n..]) <= Elements(order)
  {
    assert order[n..] == [order[n]] + order[n + 1..];
  }

  lemma FollowsNext(order: seq<Id>, n: nat, m: map<Id, Id>, next: Id)
    requires n < |order| && NoRepeats(order) && Follows(order[..n], m) && forall x | x in m :: m[x] < next
    ensures Follows(order[..n + 1], m[order[n] := next])
  {
    var m' := m[order[n] := next];
    assert order[..n + 1] == order[..n] + [order[n]];
    forall i, j | 0 <= i < j < n + 1 ensures m'[order[i]] < m'[order[j]] {
      assert order[..n][i] == order[i];
      assert j < n ==> order[..n][j] == order[j];
    }
  }

  function Link(t: Table, id: Id, parent: Id): Table
    requires id in t.rows
  {
    Table(t.rows[id := t.rows[id].(parent := Some(parent))], t.next)
  }

  /** The second pass: the rows of `todo` still lack their parent, all other copied rows have it. */
  ghost predicate Linking(src: Table, owned: set<Id>, owners: map<Id, Id>, newOwner: Id, before: Table, t: Table,
                          idMap: map<Id, Id>, todo: set<Id>) {
    && t.rows.Keys == before.rows.Keys + idMap.Values
    && (forall i | i in before.rows :: t.rows[i] == before.rows[i])
    && (forall x {:trigger PlacedAt(src.rows, newOwner, t, idMap, x)} | x in todo ::
      PlacedAt(src.rows, newOwner, t, idMap, x))
    && (forall x {:trigger CopiedAt(src, owners, t, idMap, x)} | x in owned - todo ::
      CopiedAt(src, owners, t, idMap, x))
  }

  lemma LinkStep(src: Table, owned: set<Id>, owner: Id, newOwner: Id, before: Table, t: Table,
                 idMap: map<Id, Id>, todo: set<Id>, x: Id)
    requires Linking(src, owned, map[owner := newOwner], newOwner, before, t, idMap, todo)
    requires idMap.Keys == owned == OwnedIds(src, {owner}) && Injective(idMap) && todo <= owned && x in todo
    requires forall y | y in idMap :: idMap[y] !in before.rows && idMap[y] in t.rows
    ensures src.rows[x].parent.None? ==>
              Linking(src, owned, map[owner := newOwner], newOwner, before, t, idMap, todo - {x})
    ensures src.rows[x].parent.Some? && src.rows[x].parent.value in idMap ==>
              Linking(src, owned, map[owner := newOwner], newOwner, before,
                      Link(t, idMap[x], idMap[src.rows[x].parent.value]), idMap, todo - {x})
  {
    assert PlacedAt(src.rows, newOwner, t, idMap, x);
    var owners := map[owner := newOwner];
    var parent := src.rows[x].parent;
    if parent.None? {
      assert CopiedAt(src, owners, t, idMap, x);
    } else if parent.value in idMap {
      var t' := Link(t, idMap[x], idMap[parent.value]);
      forall y | y in todo - {x} ensures PlacedAt(src.rows, newOwner, t', idMap, y) {
        assert PlacedAt(src.rows, newOwner, t, idMap, y) && InjectiveAt(idMap, x, y);
      }
      forall y | y in owned - (todo - {x}) ensures CopiedAt(src, owners, t', idMap, y) {
        if y != x {
          assert CopiedAt(src, owners, t, idMap, y) && InjectiveAt(idMap, x, y);
        }
      }
    }
  }

  class ParamTable {
    var rows: map<Id, Row>
    var next: Id

    ghost function Value(): Table
      reads this
    {
      Table(rows, next)
    }

    ghost predicate Valid()
      reads this
    {
      0 < next && forall i | i in rows :: 0 < i < next
    }

    constructor ()
      ensures Value() == Table(map[], 1)
    {
      rows, next := map[], 1;
    }

    /** Add a record and flush: the record receives the next key. */
    method Insert(row: Row) returns (id: Id)
      requires Valid()
      modifies this
      ensures Valid() && id == old(next) && id !in old(rows)
      ensures Value() == Tables.Insert(old(Value()), row)
    {
      id := next;
      rows := rows[id := row];
      next := next + 1;
    }

    method SetParent(id: Id, parent: Id)
      requires Valid() && id in rows
      modifies `rows
      ensures Valid() && rows == old(rows)[id := old(rows)[id].(parent := Some(parent))]
    {
      rows := rows[id := rows[id].(parent := Some(parent))];
    }

    /** Bulk delete by owner; also the cascade of deleting the owners themselves. */
    method DeleteOwned(gone: set<Id>)
      requires Valid()
      modifies `rows
      ensures Valid() && Value() == DropOwners(old(Value()), gone)
    {
      rows := map i | i in rows && rows[i].owner !in gone :: rows[i];
    }

    /** Store nested input depth first, each parameter before its children. */
    method ProcessParams(params: Forest<Input>, owner: Id, parent: Option<Id>, inherited: Given, side: Side)
      requires Valid()
      modifies this
      ensures Valid()
      ensures Value() == Put(old(Value()), Normal(params, inherited, side), owner, parent)
      decreases params
    {
      var todo := params;
      while todo.Tree?
        invariant Valid()
        invariant todo == params || todo < params
        invariant Put(Value(), Normal(todo, inherited, side), owner, parent)
               == Put(old(Value()), Normal(params, inherited, side), owner, parent)
        decreases todo
      {
        var x := todo.root;
        var payload := Stored(x, inherited, side);
        var id := Insert(Row(owner, parent, payload));
        if payload.Expandable() && todo.kids.Tree? {
          ProcessParams(todo.kids, owner, Some(id), HandedDown(x, inherited), side);
        }
        todo := todo.rest;
      }
    }

    /** The rows of an owner as a list, in no particular order: the relationship declares none. */
    method ReadRows(owner: Id) returns (order: seq<Id>)
      ensures Reads(order, OwnedIds(Value(), {owner}))
    {
      var owned := set i | i in rows && rows[i].owner == owner;
      assert owned == OwnedIds(Value(), {owner});
      order := [];
      var todo := owned;
      while todo != {}
        invariant todo <= owned && Reads(order, owned - todo)
        decreases todo
      {
        var x :| x in todo;
        ReadsNext(order, owned - todo, x);
        order := order + [x];
        OneLess(owned, todo, x);
        todo := todo - {x};
      }
      assert owned - todo == owned;
    }

    /** First pass: every row of the list without its parent, recording the new keys, which follow the list. */
    method InsertCopies(src: ParamTable, order: seq<Id>, newOwner: Id) returns (idMap: map<Id, Id>)
      requires src != this && Valid() && NoRepeats(order) && forall x | x in order :: x in src.rows
      modifies this
      ensures Valid() && Placed(src.rows, Elements(order), newOwner, old(Value()), Value(), idMap)
      ensures Follows(order, idMap)
    {
      idMap := map[];
      assert Elements(order[..0]) == {};
      for n := 0 to |order|
        invariant Valid() && Placed(src.rows, Elements(order[..n]), newOwner, old(Value()), Value(), idMap)
        invariant Follows(order[..n], idMap)
      {
        var x := order[n];
        ElementsNext(order, n);
        PlaceStep(src.rows, Elements(order[..n]), newOwner, old(Value()), Value(), idMap, x);
        FollowsNext(order, n, idMap, next);
        var id := Insert(Row(newOwner, None, src.rows[x].payload));
        idMap := idMap[x := id];
      }
      assert order[..|order|] == order;
    }

    /** Second pass: the parents, through the record of the first pass. A parent missing from the record is a
        KeyError. */
    method LinkCopies(src: ParamTable, order: seq<Id>, owner: Id, newOwner: Id, idMap: map<Id, Id>, ghost before: Table)
      returns (ok: bool)
      requires src != this && Valid() && Reads(order, OwnedIds(src.Value(), {owner}))
      requires Placed(src.rows, Elements(order), newOwner, before, Value(), idMap)
      requires forall i | i in before.rows :: i < before.next
      modifies `rows
      ensures Valid()
      ensures ok <==> ParentsInside(src.Value(), owner)
      ensures ok ==> TableCopy(src.Value(), map[owner := newOwner], before, Value(), idMap)
    {
      ghost var from, owned := src.Value(), Elements(order);
      assert owned == OwnedIds(from, {owner});
      assert order[0..] == order;
      for n := 0 to |order|
        invariant Valid()
        invariant Linking(from, owned, map[owner := newOwner], newOwner, before, Value(), idMap, Elements(order[n..]))
      {
        var x := order[n];
        RemainingNext(order, n);
        assert idMap[x] in idMap.Values;
        LinkStep(from, owned, owner, newOwner, before, Value(), idMap, Elements(order[n..]), x);
        if src.rows[x].parent.Some? {
          if src.rows[x].parent.value !in idMap {
            ok := false;
            return;
          }
          SetParent(idMap[x], idMap[src.rows[x].parent.value]);
        }
      }
      ok := true;
      forall i | i in owned && src.rows[i].parent.Some?
        ensures src.rows[i].parent.value in owned
      {
        assert CopiedAt(from, map[owner := newOwner], Value(), idMap, i);
      }
    }

    /** The copy used by starting and by committing an iteration: two passes over the rows in the order they were
        read. */
    method CopyFrom(src: ParamTable, owner: Id, newOwner: Id, order: seq<Id>) returns (ok: bool, idMap: map<Id, Id>)
      requires src != this && Valid() && Reads(order, OwnedIds(src.Value(), {owner}))
      modifies this
      ensures Valid()
      ensures ok <==> ParentsInside(src.Value(), owner)
      ensures ok ==> TableCopy(src.Value(), map[owner := newOwner], old(Value()), Value(), idMap)
      ensures Follows(order, idMap)
    {
      forall x | x in order ensures x in src.rows {
        assert x in Elements(order);
      }
      idMap := InsertCopies(src, order, newOwner);
      ok := LinkCopies(src, order, owner, newOwner, idMap, old(Value()));
    }

    /**
     * The recursive copy used by duplicating a draft: each row, then its children under the new row.
     * `source` is the table before the copying began; only its rows are ever visited.
     */
    method CopyRecursively(tops: set<Id>, parent: Option<Id>, newOwner: Id, ghost source: Table, ghost owners: set<Id>)
      returns (ghost m: map<Id, Id>)
      requires Valid() && TableOk(source, owners) && Extends(source, Value())
      requires tops <= source.rows.Keys && (parent.Some? ==> source.next <= parent.value)
      requires forall x, z | x in tops && z in tops :: source.rows[x].parent == source.rows[z].parent
      modifies this
      ensures Valid() && Extends(source, Value())
      ensures SubCopy(source, tops, Descend(source.rows, tops), parent, newOwner, old(Value()), Value(), m)
      decreases Descend(source.rows, tops), 1
    {
      var todo := tops;
      m := map[];
      assert Descend(source.rows, tops - todo) == {};
      while todo != {}
        invariant Valid() && Extends(source, Value()) && todo <= tops
        invariant SubCopy(source, tops - todo, Descend(source.rows, tops - todo), parent, newOwner, old(Value()),
          Value(), m)
        decreases todo
      {
        var x :| x in todo;
        ghost var t1 := Value();
        MemberDescends(source.rows, tops, x);
        ghost var m2 := CopyOne(x, parent, newOwner, source, owners);
        SiblingStep(source, owners, tops - todo, x, parent, newOwner, old(Value()), t1, Value(), m, m2);
        m := m + m2;
        OneLess(tops, todo, x);
        todo := todo - {x};
      }
      assert tops - todo == tops;
    }

    /** One turn of the recursive copy: the row, then its children under the new row. */
    method CopyOne(x: Id, parent: Option<Id>, newOwner: Id, ghost source: Table, ghost owners: set<Id>)
      returns (ghost m: map<Id, Id>)
      requires Valid() && TableOk(source, owners) && Extends(source, Value())
      requires x in source.rows && (parent.Some? ==> source.next <= parent.value)
      modifies this
      ensures Valid() && Extends(source, Value())
      ensures SubCopy(source, {x}, Descend(source.rows, {x}), parent, newOwner, old(Value()), Value(), m)
      decreases Descend(source.rows, {x}), 0
    {
      var row := Row(newOwner, parent, rows[x].payload);
      ExtendsInsert(source, Value(), row);
      var id := Insert(row);
      SameChildren(source, owners, Value(), x);
      DescendSplits(source.rows, x);
      NotBelowChild(source, owners, x);
      m := CopyRecursively(Children(rows, x), Some(id), newOwner, source, owners);
      SubCopyNode(source, x, Descend(source.rows, Children(source.rows, x)), parent, newOwner, old(Value()), Value(),
        m);
      m := m[x := id];
    }

    /** Duplicate the rows of `owner` for `newOwner`, starting from the rows without a parent. */
    method CopyWithin(owner: Id, newOwner: Id, ghost owners: set<Id>) returns (ghost m: map<Id, Id>)
      requires TableOk(Value(), owners)
      modifies this
      ensures Valid()
      ensures TableCopy(old(Value()), map[owner := newOwner], old(Value()), Value(), m)
    {
      m := CopyRecursively(RootsOf(rows, owner), None, newOwner, Value(), owners);
      RootSubCopyIsTableCopy(old(Value()), owners, owner, newOwner, old(Value()), Value(), m);
    }
  }
}
