/** The rows below given rows: what a recursive copier visits, and why it visits each row once. */
module Descent {
  import opened Model
  import opened Tables

  ghost predicate Below(rows: map<Id, Row>, y: Id, x: Id) {
    exists n: nat :: Above(rows, y, n) == Some(x)
  }

  /** `tops` and every row below one of them. */
  ghost function Descend(rows: map<Id, Row>, tops: set<Id>): set<Id> {
    set y | y in rows && exists x :: x in tops && Below(rows, y, x)
  }

  function Children(rows: map<Id, Row>, x: Id): set<Id> {
    set c | c in rows && rows[c].parent == Some(x)
  }

  function RootsOf(rows: map<Id, Row>, owner: Id): set<Id> {
    set r | r in rows && rows[r].owner == owner && rows[r].parent.None?
  }

  lemma {:induction false} AboveAdds(rows: map<Id, Row>, y: Id, n: nat, k: nat)
    ensures Above(rows, y, n).None? ==> Above(rows, y, n + k).None?
    ensures Above(rows, y, n).Some? ==> Above(rows, y, n + k) == Above(rows, Above(rows, y, n).value, k)
    decreases n
  {
    if n != 0 && y in rows && rows[y].parent.Some? {
      AboveAdds(rows, rows[y].parent.value, n - 1, k);
    }
  }

  /** A row's descendants are itself and the descendants of its children. */
  lemma DescendSplits(rows: map<Id, Row>, x: Id)
    requires x in rows
    ensures Descend(rows, {x}) == {x} + Descend(rows, Children(rows, x))
  {
    assert Above(rows, x, 0) == Some(x);
    forall y | y in Descend(rows, {x}) && y != x
      ensures y in Descend(rows, Children(rows, x))
    {
      var n: nat :| Above(rows, y, n) == Some(x);
      AboveAdds(rows, y, n - 1, 1);
      var c := Above(rows, y, n - 1).value;
      assert Above(rows, c, 1) == Some(x);
      assert Above(rows, c, 1) == if c in rows && rows[c].parent.Some? then Above(rows, rows[c].parent.value, 0)
        else None;
      assert Below(rows, y, c) && c in Children(rows, x);
    }
    forall y | y in Descend(rows, Children(rows, x))
      ensures Below(rows, y, x)
    {
      var c :| c in Children(rows, x) && Below(rows, y, c);
      var n: nat :| Above(rows, y, n) == Some(c);
      AboveAdds(rows, y, n, 1);
      assert Above(rows, c, 1) == Above(rows, x, 0);
      assert Above(rows, y, n + 1) == Some(x);
    }
  }

  lemma DescendJoins(rows: map<Id, Row>, a: set<Id>, b: set<Id>)
    ensures Descend(rows, a + b) == Descend(rows, a) + Descend(rows, b)
  {
  }

  lemma MemberDescends(rows: map<Id, Row>, tops: set<Id>, x: Id)
    requires x in tops
    ensures Descend(rows, {x}) <= Descend(rows, tops)
  {
    DescendJoins(rows, tops, {x});
    assert tops + {x} == tops;
  }

  lemma OneLess(all: set<Id>, todo: set<Id>, x: Id)
    requires x in todo && todo <= all
    ensures all - (todo - {x}) == (all - todo) + {x}
  {
  }

  lemma DescendContains(rows: map<Id, Row>, tops: set<Id>)
    requires tops <= rows.Keys
    ensures tops <= Descend(rows, tops)
  {
    forall x | x in tops ensures Below(rows, x, x) {
      assert Above(rows, x, 0) == Some(x);
    }
  }

  /** No row is below one of its own children, so recursion into children makes progress. */
  lemma NotBelowChild(t: Table, owners: set<Id>, x: Id)
    requires TableOk(t, owners) && x in t.rows
    ensures x !in Descend(t.rows, Children(t.rows, x))
  {
    if x in Descend(t.rows, Children(t.rows, x)) {
      var c :| c in Children(t.rows, x) && Below(t.rows, x, c);
      var n: nat :| Above(t.rows, x, n) == Some(c);
      AboveAdds(t.rows, x, n, 1);
      assert Above(t.rows, c, 1) == Above(t.rows, x, 0);
      NoRowAboveItself(t, owners, x);
      assert false;
    }
  }

  lemma SiblingNotAbove(t: Table, owners: set<Id>, x: Id, z: Id, k: nat)
    requires TableOk(t, owners) && x in t.rows && z in t.rows && x != z
    requires t.rows[x].parent == t.rows[z].parent
    ensures Above(t.rows, x, k) != Some(z)
  {
    if Above(t.rows, x, k) == Some(z) {
      assert t.rows[x].parent.Some?;
      var p := t.rows[x].parent.value;
      assert Above(t.rows, p, k - 1) == Some(z);
      AboveAdds(t.rows, p, k - 1, 1);
      assert Above(t.rows, z, 1) == Above(t.rows, p, 0);
      assert ParentOkAt(t.rows, x);
      NoRowAboveItself(t, owners, p);
      assert false;
    }
  }

  /** Rows with the same parent have disjoint sets of descendants. */
  lemma SiblingsApart(t: Table, owners: set<Id>, x: Id, z: Id)
    requires TableOk(t, owners) && x in t.rows && z in t.rows && x != z
    requires t.rows[x].parent == t.rows[z].parent
    ensures Descend(t.rows, {x}) !! Descend(t.rows, {z})
  {
    forall y | y in Descend(t.rows, {x}) && y in Descend(t.rows, {z})
      ensures false
    {
      var n: nat :| Above(t.rows, y, n) == Some(x);
      var k: nat :| Above(t.rows, y, k) == Some(z);
      if n <= k {
        AboveAdds(t.rows, y, n, k - n);
        SiblingNotAbove(t, owners, x, z, k - n);
      } else {
        AboveAdds(t.rows, y, k, n - k);
        SiblingNotAbove(t, owners, z, x, n - k);
      }
    }
  }

  /** Siblings given as a set are apart from one more sibling. */
  lemma SiblingSetApart(t: Table, owners: set<Id>, a: set<Id>, z: Id, parent: Option<Id>)
    requires TableOk(t, owners) && a <= t.rows.Keys && z in t.rows && z !in a
    requires t.rows[z].parent == parent && forall x | x in a :: t.rows[x].parent == parent
    ensures Descend(t.rows, a) !! Descend(t.rows, {z})
  {
    forall y | y in Descend(t.rows, a) ensures y !in Descend(t.rows, {z}) {
      var x :| x in a && Below(t.rows, y, x);
      assert y in Descend(t.rows, {x});
      SiblingsApart(t, owners, x, z);
    }
  }

  lemma {:induction false} ReachesRoot(t: Table, owners: set<Id>, rank: map<Id, nat>, bound: nat, y: Id)
    requires TableOk(t, owners) && Ranked(t.rows, rank, bound) && y in t.rows
    ensures exists r :: r in RootsOf(t.rows, t.rows[y].owner) && Below(t.rows, y, r)
    decreases rank[y]
  {
    assert ParentOkAt(t.rows, y);
    if t.rows[y].parent.None? {
      assert Above(t.rows, y, 0) == Some(y);
      assert y in RootsOf(t.rows, t.rows[y].owner) && Below(t.rows, y, y);
    } else {
      var p := t.rows[y].parent.value;
      ReachesRoot(t, owners, rank, bound, p);
      var r :| r in RootsOf(t.rows, t.rows[p].owner) && Below(t.rows, p, r);
      var n: nat :| Above(t.rows, p, n) == Some(r);
      assert Above(t.rows, y, n + 1) == Some(r);
    }
  }

  lemma {:induction false} AboveKeepsOwner(t: Table, owners: set<Id>, y: Id, n: nat)
    requires TableOk(t, owners) && y in t.rows
    ensures Above(t.rows, y, n).Some? ==>
              Above(t.rows, y, n).value in t.rows && t.rows[Above(t.rows, y, n).value].owner == t.rows[y].owner
    decreases n
  {
    assert ParentOkAt(t.rows, y);
    if n != 0 && t.rows[y].parent.Some? {
      AboveKeepsOwner(t, owners, t.rows[y].parent.value, n - 1);
    }
  }

  /** Going down from the roots of an owner visits exactly the rows of that owner. */
  lemma RootsCoverOwner(t: Table, owners: set<Id>, owner: Id)
    requires TableOk(t, owners)
    ensures Descend(t.rows, RootsOf(t.rows, owner)) == OwnedIds(t, {owner})
  {
    var rank: map<Id, nat>, bound: nat :| Ranked(t.rows, rank, bound);
    forall y | y in t.rows
      ensures y in Descend(t.rows, RootsOf(t.rows, owner)) <==> t.rows[y].owner == owner
    {
      ReachesRoot(t, owners, rank, bound, y);
      if y in Descend(t.rows, RootsOf(t.rows, owner)) {
        var r :| r in RootsOf(t.rows, owner) && Below(t.rows, y, r);
        var n: nat :| Above(t.rows, y, n) == Some(r);
        AboveKeepsOwner(t, owners, y, n);
      }
    }
  }

  // ---- what the recursive copier has written ----

  predicate CopiedBelow(src: Table, tops: set<Id>, parent: Option<Id>, newOwner: Id, after: Table, m: map<Id, Id>,
                        x: Id) {
    && x in m && x in src.rows && m[x] in after.rows
    && after.rows[m[x]].owner == newOwner
    && after.rows[m[x]].payload == src.rows[x].payload
    && if x in tops then after.rows[m[x]].parent == parent
       else ParentMapped(src.rows[x].parent, after.rows[m[x]].parent, m)
  }

  ghost predicate AllCopiedBelow(src: Table, tops: set<Id>, parent: Option<Id>, newOwner: Id, after: Table,
                                 m: map<Id, Id>) {
    forall x {:trigger CopiedBelow(src, tops, parent, newOwner, after, m, x)} | x in m ::
      CopiedBelow(src, tops, parent, newOwner, after, m, x)
  }

  /** `after` is `before` plus a copy of the rows `dom`: `tops` under `parent`, all others under their parent's copy. */
  ghost predicate SubCopy(src: Table, tops: set<Id>, dom: set<Id>, parent: Option<Id>, newOwner: Id,
                          before: Table, after: Table, m: map<Id, Id>) {
    && m.Keys == dom
    && Injective(m)
    && before.next <= after.next
    && (forall x | x in m :: before.next <= m[x] < after.next)
    && after.rows.Keys == before.rows.Keys + m.Values
    && (forall i | i in before.rows :: after.rows[i] == before.rows[i])
    && AllCopiedBelow(src, tops, parent, newOwner, after, m)
  }

  lemma SubCopyRanges(src: Table, a: set<Id>, da: set<Id>, pa: Option<Id>, b: set<Id>, db: set<Id>, pb: Option<Id>,
                      newOwner: Id, t0: Table, t1: Table, t2: Table, m1: map<Id, Id>, m2: map<Id, Id>)
    requires SubCopy(src, a, da, pa, newOwner, t0, t1, m1) && SubCopy(src, b, db, pb, newOwner, t1, t2, m2)
    ensures m1.Values !! m2.Values
  {
    forall y | y in m1.Values ensures y < t1.next {
      var x :| x in m1 && m1[x] == y;
    }
    forall y | y in m2.Values ensures t1.next <= y {
      var x :| x in m2 && m2[x] == y;
    }
  }

  lemma SubCopyWidens(src: Table, a: set<Id>, b: set<Id>, parent: Option<Id>, newOwner: Id, t1: Table, t2: Table,
                      m1: map<Id, Id>, m: map<Id, Id>, x: Id)
    requires CopiedBelow(src, a, parent, newOwner, t1, m1, x)
    requires x in m && m[x] == m1[x] && forall y | y in m1 :: y in m && m[y] == m1[y]
    requires m[x] in t2.rows && t2.rows[m[x]] == t1.rows[m[x]]
    requires x in b <==> x in a
    ensures CopiedBelow(src, b, parent, newOwner, t2, m, x)
  {
  }

  lemma SubCopyRowsMerge(src: Table, a: set<Id>, da: set<Id>, b: set<Id>, db: set<Id>, parent: Option<Id>, newOwner: Id,
                         t0: Table, t1: Table, t2: Table, m1: map<Id, Id>, m2: map<Id, Id>)
    requires SubCopy(src, a, da, parent, newOwner, t0, t1, m1) && SubCopy(src, b, db, parent, newOwner, t1, t2, m2)
    requires a <= da && b <= db && da !! db
    ensures AllCopiedBelow(src, a + b, parent, newOwner, t2, m1 + m2)
  {
    forall x | x in m1 + m2
      ensures CopiedBelow(src, a + b, parent, newOwner, t2, m1 + m2, x)
    {
      if x in m1 {
        assert m1[x] in m1.Values;
        assert CopiedBelow(src, a, parent, newOwner, t1, m1, x);
        SubCopyWidens(src, a, a + b, parent, newOwner, t1, t2, m1, m1 + m2, x);
      } else {
        assert CopiedBelow(src, b, parent, newOwner, t2, m2, x);
        SubCopyWidens(src, b, a + b, parent, newOwner, t2, t2, m2, m1 + m2, x);
      }
    }
  }

  lemma SubCopyMerges(src: Table, a: set<Id>, da: set<Id>, b: set<Id>, db: set<Id>, parent: Option<Id>, newOwner: Id,
                      t0: Table, t1: Table, t2: Table, m1: map<Id, Id>, m2: map<Id, Id>)
    requires SubCopy(src, a, da, parent, newOwner, t0, t1, m1) && SubCopy(src, b, db, parent, newOwner, t1, t2, m2)
    requires a <= da && b <= db && da !! db
    ensures SubCopy(src, a + b, da + db, parent, newOwner, t0, t2, m1 + m2)
  {
    SubCopyRanges(src, a, da, parent, b, db, parent, newOwner, t0, t1, t2, m1, m2);
    MergedRenaming(m1, m2);
    SubCopyRowsMerge(src, a, da, b, db, parent, newOwner, t0, t1, t2, m1, m2);
  }

  lemma SubCopyNodeRows(src: Table, x: Id, below: set<Id>, parent: Option<Id>, newOwner: Id, t0: Table, t1: Table,
                        t2: Table, m2: map<Id, Id>)
    requires x in src.rows && x !in below && forall i | i in t0.rows :: i < t0.next
    requires t1 == Insert(t0, Row(newOwner, parent, src.rows[x].payload))
    requires SubCopy(src, Children(src.rows, x), below, Some(t0.next), newOwner, t1, t2, m2)
    ensures AllCopiedBelow(src, {x}, parent, newOwner, t2, m2[x := t0.next])
  {
    var m := m2[x := t0.next];
    forall z | z in m
      ensures CopiedBelow(src, {x}, parent, newOwner, t2, m, z)
    {
      if z == x {
        assert t0.next in t1.rows;
      } else {
        assert CopiedBelow(src, Children(src.rows, x), Some(t0.next), newOwner, t2, m2, z);
      }
    }
  }

  lemma RenamingGrows(x: Id, y: Id, m: map<Id, Id>)
    requires x !in m && (forall z | z in m :: m[z] != y)
    ensures (m[x := y]).Values == m.Values + {y}
    ensures Injective(m) ==> Injective(m[x := y])
  {
    var m' := m[x := y];
    forall v | v in m.Values ensures v in m'.Values {
      var z :| z in m && m[z] == v;
      assert m'[z] == v;
    }
    assert m'[x] == y;
    if Injective(m) {
      forall z, w ensures InjectiveAt(m', z, w) {
        assert InjectiveAt(m, z, w);
      }
    }
  }

  /** Copying a row and then, under its copy, its children copies the row with everything below it. */
  lemma SubCopyNode(src: Table, x: Id, below: set<Id>, parent: Option<Id>, newOwner: Id, t0: Table, t2: Table,
                    m2: map<Id, Id>)
    requires x in src.rows && x !in below && forall i | i in t0.rows :: i < t0.next
    requires SubCopy(src, Children(src.rows, x), below, Some(t0.next), newOwner,
                     Insert(t0, Row(newOwner, parent, src.rows[x].payload)), t2, m2)
    ensures SubCopy(src, {x}, {x} + below, parent, newOwner, t0, t2, m2[x := t0.next])
  {
    var t1 := Insert(t0, Row(newOwner, parent, src.rows[x].payload));
    assert forall z | z in m2 :: t0.next < m2[z];
    RenamingGrows(x, t0.next, m2);
    SubCopyNodeRows(src, x, below, parent, newOwner, t0, t1, t2, m2);
    assert t1.rows.Keys == t0.rows.Keys + {t0.next};
  }

  /** Copying every root of an owner recursively is a copy of that owner's rows. */
  lemma RootSubCopyIsTableCopy(src: Table, owners: set<Id>, owner: Id, newOwner: Id, before: Table, after: Table,
                               m: map<Id, Id>)
    requires TableOk(src, owners)
    requires SubCopy(src, RootsOf(src.rows, owner), Descend(src.rows, RootsOf(src.rows, owner)), None, newOwner,
      before, after, m)
    ensures TableCopy(src, map[owner := newOwner], before, after, m)
  {
    RootsCoverOwner(src, owners, owner);
    forall x | x in m
      ensures CopiedAt(src, map[owner := newOwner], after, m, x)
    {
      assert CopiedBelow(src, RootsOf(src.rows, owner), None, newOwner, after, m, x);
    }
  }

  // ---- the table while the recursive copier runs ----

  /** `t` still holds every row of `source`; every row added since has a key and a parent that `source` never used. */
  ghost predicate Extends(source: Table, t: Table) {
    && source.next <= t.next
    && (forall i | i in source.rows :: i in t.rows && t.rows[i] == source.rows[i])
    && (forall i | i in t.rows && i !in source.rows ::
          source.next <= i && (t.rows[i].parent.Some? ==> source.next <= t.rows[i].parent.value))
  }

  lemma ExtendsInsert(source: Table, t: Table, row: Row)
    requires Extends(source, t) && (forall i | i in t.rows :: i < t.next)
    requires row.parent.Some? ==> source.next <= row.parent.value
    ensures Extends(source, Insert(t, row))
  {
  }

  lemma SameChildren(source: Table, owners: set<Id>, t: Table, x: Id)
    requires TableOk(source, owners) && Extends(source, t) && x in source.rows
    ensures Children(t.rows, x) == Children(source.rows, x)
  {
  }

  /** One more sibling copied with everything below it. */
  lemma SiblingStep(source: Table, owners: set<Id>, done: set<Id>, x: Id, parent: Option<Id>, newOwner: Id,
                    t0: Table, t1: Table, t2: Table, m1: map<Id, Id>, m2: map<Id, Id>)
    requires TableOk(source, owners) && x in source.rows && x !in done && done <= source.rows.Keys
    requires forall z | z in done :: source.rows[z].parent == source.rows[x].parent
    requires SubCopy(source, done, Descend(source.rows, done), parent, newOwner, t0, t1, m1)
    requires SubCopy(source, {x}, Descend(source.rows, {x}), parent, newOwner, t1, t2, m2)
    ensures SubCopy(source, done + {x}, Descend(source.rows, done + {x}), parent, newOwner, t0, t2, m1 + m2)
  {
    SiblingSetApart(source, owners, done, x, source.rows[x].parent);
    DescendContains(source.rows, done);
    DescendContains(source.rows, {x});
    DescendJoins(source.rows, done, {x});
    SubCopyMerges(source, done, Descend(source.rows, done), {x}, Descend(source.rows, {x}), parent, newOwner,
                  t0, t1, t2, m1, m2);
  }
}
