/** Rebuilding nested parameters from rows: the specification of the fetch, and what fetched forests look like. */
module Fetching {
  import opened Model
  import opened Forests
  import opened Tables
  import opened Descent
  import opened Sequences

  /** A parameter row together with its key, as the fetch reads it. */
  datatype Rec = Rec(id: Id, row: Row)

  predicate DistinctIds(rows: seq<Rec>) {
    forall i, j | 0 <= i < j < |rows| :: rows[i].id != rows[j].id
  }

  /** A parent key of 0 counts as no parent. */
  predicate HasParent(r: Rec) {
    r.row.parent.Some? && r.row.parent.value != 0
  }

  predicate IsChild(r: Rec, p: Id) {
    HasParent(r) && r.row.parent.value == p
  }

  /** The children of `p`: the rows whose parent is `p`, in row order. */
  function ChildIds(rows: seq<Rec>, p: Id): seq<Id> {
    if rows == [] then []
    else
      var r := rows[|rows| - 1];
      ChildIds(rows[..|rows| - 1], p) + (if IsChild(r, p) then [r.id] else [])
  }

  predicate IsRoot(r: Rec, k: Key) {
    !HasParent(r) && r.row.payload.key == k
  }

  /** The roots of group `k`, in row order. */
  function RootIds(rows: seq<Rec>, k: Key): seq<Id> {
    if rows == [] then []
    else
      var r := rows[|rows| - 1];
      RootIds(rows[..|rows| - 1], k) + (if IsRoot(r, k) then [r.id] else [])
  }

  /** The groups that have a root, in the order of their first roots: a dictionary in insertion order. */
  function RootKeys(rows: seq<Rec>): seq<Key> {
    if rows == [] then []
    else
      var r, before := rows[|rows| - 1], RootKeys(rows[..|rows| - 1]);
      if HasParent(r) || r.row.payload.key in before then before else before + [r.row.payload.key]
  }

  /** Each group with a root is listed, once, and no other. */
  lemma {:induction false} RootKeysAre(rows: seq<Rec>)
    ensures forall k :: k in RootKeys(rows) <==> RootIds(rows, k) != []
    ensures forall i, j | 0 <= i < j < |RootKeys(rows)| :: RootKeys(rows)[i] != RootKeys(rows)[j]
  {
    if rows != [] {
      RootKeysAre(rows[..|rows| - 1]);
      var r, before := rows[|rows| - 1], RootKeys(rows[..|rows| - 1]);
      forall k ensures k in RootKeys(rows) <==> RootIds(rows, k) != [] {
        assert k in RootKeys(rows) <==> k in before || (!HasParent(r) && k == r.row.payload.key);
      }
    }
  }

  /** The trees at `ids` are `f`: each with its own row at the top and, below it, the trees at its children. */
  ghost predicate Represents(rows: seq<Rec>, ids: seq<Id>, f: Forest<Rec>)
    decreases f
  {
    match f
    case Empty => ids == []
    case Tree(r, kids, rest) =>
      && ids != [] && r in rows && r.id == ids[0]
      && Represents(rows, ChildIds(rows, r.id), kids)
      && Represents(rows, ids[1..], rest)
  }

  /** Rows determine the forest. */
  lemma {:induction false} RepresentsIsUnique(rows: seq<Rec>, ids: seq<Id>, f: Forest<Rec>, g: Forest<Rec>)
    requires DistinctIds(rows) && Represents(rows, ids, f) && Represents(rows, ids, g)
    ensures f == g
    decreases f
  {
    if f.Tree? {
      RepresentsIsUnique(rows, ChildIds(rows, f.root.id), f.kids, g.kids);
      RepresentsIsUnique(rows, ids[1..], f.rest, g.rest);
    }
  }

  // ---- lists of rows against tables ----

  /** `rows` are the rows of `owner`, each once. */
  ghost predicate Lists(rows: seq<Rec>, t: Table, owner: Id) {
    && DistinctIds(rows)
    && (forall r | r in rows :: r.id in t.rows && t.rows[r.id] == r.row && r.row.owner == owner)
    && (forall i | i in t.rows && t.rows[i].owner == owner :: Rec(i, t.rows[i]) in rows)
  }

  lemma {:induction false} ChildIdsAre(rows: seq<Rec>, p: Id)
    ensures forall x :: x in ChildIds(rows, p) <==> exists r :: r in rows && r.id == x && IsChild(r, p)
  {
    if rows != [] {
      ChildIdsAre(rows[..|rows| - 1], p);
      assert rows == rows[..|rows| - 1] + [rows[|rows| - 1]];
    }
  }

  lemma {:induction false} RootIdsAre(rows: seq<Rec>, k: Key)
    ensures forall x :: x in RootIds(rows, k) <==> exists r :: r in rows && r.id == x && IsRoot(r, k)
  {
    if rows != [] {
      RootIdsAre(rows[..|rows| - 1], k);
      assert rows == rows[..|rows| - 1] + [rows[|rows| - 1]];
    }
  }

  lemma LastIsNew(rows: seq<Rec>, ids: seq<Id>)
    requires DistinctIds(rows) && rows != []
    requires forall x | x in ids :: exists r :: r in rows[..|rows| - 1] && r.id == x
    ensures rows[|rows| - 1].id !in ids
  {
  }

  lemma {:induction false} ChildIdsDistinct(rows: seq<Rec>, p: Id)
    requires DistinctIds(rows)
    ensures NoRepeats(ChildIds(rows, p))
  {
    if rows != [] {
      ChildIdsDistinct(rows[..|rows| - 1], p);
      ChildIdsAre(rows[..|rows| - 1], p);
      LastIsNew(rows, ChildIds(rows[..|rows| - 1], p));
    }
  }

  lemma {:induction false} RootIdsDistinct(rows: seq<Rec>, k: Key)
    requires DistinctIds(rows)
    ensures NoRepeats(RootIds(rows, k))
  {
    if rows != [] {
      RootIdsDistinct(rows[..|rows| - 1], k);
      RootIdsAre(rows[..|rows| - 1], k);
      LastIsNew(rows, RootIds(rows[..|rows| - 1], k));
    }
  }

  /** In a listed table the child list of a row is the set of its children. */
  lemma ChildrenListed(t: Table, owners: set<Id>, owner: Id, rows: seq<Rec>, x: Id)
    requires TableOk(t, owners) && Lists(rows, t, owner) && x in t.rows && t.rows[x].owner == owner
    ensures forall y :: y in ChildIds(rows, x) <==> y in Children(t.rows, x)
    ensures NoRepeats(ChildIds(rows, x))
  {
    ChildIdsAre(rows, x);
    ChildIdsDistinct(rows, x);
    forall y | y in Children(t.rows, x) ensures y in ChildIds(rows, x) {
      assert ParentOkAt(t.rows, y);
      assert Rec(y, t.rows[y]) in rows && IsChild(Rec(y, t.rows[y]), x);
    }
  }

  /** Every list of rows of a well-formed table represents a forest. */
  lemma {:induction false} ForestExists(t: Table, owners: set<Id>, owner: Id, rows: seq<Rec>, rank: map<Id, nat>,
                                        bound: nat, ids: seq<Id>, depth: nat) returns (f: Forest<Rec>)
    requires TableOk(t, owners) && Lists(rows, t, owner) && Ranked(t.rows, rank, bound) && depth <= bound + 1
    requires forall x | x in ids :: x in t.rows && t.rows[x].owner == owner && depth <= rank[x]
    ensures Represents(rows, ids, f)
    decreases bound + 1 - depth, |ids|
  {
    if ids == [] {
      f := Empty;
    } else {
      var x := ids[0];
      ChildrenListed(t, owners, owner, rows, x);
      forall y | y in ChildIds(rows, x) ensures t.rows[y].owner == owner && rank[x] < rank[y] {
        assert ParentOkAt(t.rows, y);
      }
      var kids := ForestExists(t, owners, owner, rows, rank, bound, ChildIds(rows, x), rank[x] + 1);
      var rest := ForestExists(t, owners, owner, rows, rank, bound, ids[1..], depth);
      f := Tree(Rec(x, t.rows[x]), kids, rest);
    }
  }

  // ---- conservation of rows ----

  function Occurrences(f: Forest<Rec>, y: Id): nat {
    match f
    case Empty => 0
    case Tree(r, kids, rest) => (if r.id == y then 1 else 0) + Occurrences(kids, y) + Occurrences(rest, y)
  }

  ghost predicate BelowSome(rows: map<Id, Row>, y: Id, ids: seq<Id>) {
    exists x :: x in ids && Below(rows, y, x)
  }

  lemma BelowSplits(t: Table, owners: set<Id>, y: Id, x: Id, kids: seq<Id>)
    requires TableOk(t, owners) && x in t.rows && y in t.rows
    requires forall c :: c in kids <==> c in Children(t.rows, x)
    ensures Below(t.rows, y, x) <==> y == x || BelowSome(t.rows, y, kids)
    ensures !BelowSome(t.rows, x, kids)
  {
    DescendSplits(t.rows, x);
    NotBelowChild(t, owners, x);
    assert y in Descend(t.rows, {x}) <==> Below(t.rows, y, x);
    assert y in Descend(t.rows, Children(t.rows, x)) <==> BelowSome(t.rows, y, kids);
    assert x in Descend(t.rows, Children(t.rows, x)) <==> BelowSome(t.rows, x, kids);
  }

  /** In the trees at sibling rows, a row occurs once if it is below one of them and not at all otherwise. */
  lemma {:induction false} OccursOnce(t: Table, owners: set<Id>, owner: Id, rows: seq<Rec>, ids: seq<Id>,
                                      parent: Option<Id>, f: Forest<Rec>, y: Id)
    requires TableOk(t, owners) && Lists(rows, t, owner) && Represents(rows, ids, f) && NoRepeats(ids)
    requires forall x | x in ids :: x in t.rows && t.rows[x].owner == owner && t.rows[x].parent == parent
    requires y in t.rows
    ensures Occurrences(f, y) == if BelowSome(t.rows, y, ids) then 1 else 0
    decreases f
  {
    if f.Tree? {
      var x, kids := f.root.id, ChildIds(rows, f.root.id);
      ChildrenListed(t, owners, owner, rows, x);
      forall c | c in kids ensures t.rows[c].owner == owner {
        assert ParentOkAt(t.rows, c);
      }
      OccursOnce(t, owners, owner, rows, kids, Some(x), f.kids, y);
      OccursOnce(t, owners, owner, rows, ids[1..], parent, f.rest, y);
      BelowSplits(t, owners, y, x, kids);
      OneSiblingOnly(t, owners, ids, parent, y);
    }
  }

  lemma NotBelowBoth(t: Table, owners: set<Id>, x: Id, z: Id, y: Id)
    requires TableOk(t, owners) && x in t.rows && z in t.rows && x != z && y in t.rows
    requires t.rows[x].parent == t.rows[z].parent
    ensures !(Below(t.rows, y, x) && Below(t.rows, y, z))
  {
    SiblingsApart(t, owners, x, z);
    assert Below(t.rows, y, x) ==> y in Descend(t.rows, {x});
    assert Below(t.rows, y, z) ==> y in Descend(t.rows, {z});
  }

  lemma OneSiblingOnly(t: Table, owners: set<Id>, ids: seq<Id>, parent: Option<Id>, y: Id)
    requires TableOk(t, owners) && ids != [] && NoRepeats(ids) && y in t.rows
    requires forall x | x in ids :: x in t.rows && t.rows[x].parent == parent
    ensures BelowSome(t.rows, y, ids) <==> Below(t.rows, y, ids[0]) || BelowSome(t.rows, y, ids[1..])
    ensures !(Below(t.rows, y, ids[0]) && BelowSome(t.rows, y, ids[1..]))
  {
    assert ids == [ids[0]] + ids[1..];
    if Below(t.rows, y, ids[0]) && BelowSome(t.rows, y, ids[1..]) {
      var z :| z in ids[1..] && Below(t.rows, y, z);
      NotBelowBoth(t, owners, ids[0], z, y);
    }
  }

  /** Fetching conserves rows: each row occurs exactly once, in the group of its root, and in no other group. */
  lemma EveryRowOnce(t: Table, owners: set<Id>, owner: Id, rows: seq<Rec>, y: Id) returns (home: Key)
    requires TableOk(t, owners) && Lists(rows, t, owner) && y in t.rows && t.rows[y].owner == owner
    ensures forall k, f | Represents(rows, RootIds(rows, k), f) :: Occurrences(f, y) == if k == home then 1 else 0
  {
    var rank: map<Id, nat>, bound: nat :| Ranked(t.rows, rank, bound);
    ReachesRoot(t, owners, rank, bound, y);
    var r :| r in RootsOf(t.rows, owner) && Below(t.rows, y, r);
    home := t.rows[r].payload.key;
    forall k, f | Represents(rows, RootIds(rows, k), f)
      ensures Occurrences(f, y) == if k == home then 1 else 0
    {
      RootIdsAre(rows, k);
      RootIdsDistinct(rows, k);
      forall x | x in RootIds(rows, k)
        ensures x in RootsOf(t.rows, owner) && t.rows[x].payload.key == k
      {
        var rec :| rec in rows && rec.id == x && IsRoot(rec, k);
        assert ParentOkAt(t.rows, x);
      }
      OccursOnce(t, owners, owner, rows, RootIds(rows, k), None, f, y);
      if k == home {
        assert Rec(r, t.rows[r]) in rows && IsRoot(Rec(r, t.rows[r]), k);
        assert r in RootIds(rows, k);
      } else if BelowSome(t.rows, y, RootIds(rows, k)) {
        var x :| x in RootIds(rows, k) && Below(t.rows, y, x);
        NotBelowBoth(t, owners, r, x, y);
      }
    }
  }
}
