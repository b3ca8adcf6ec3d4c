/** Parameter tables as values: parent-linked rows, what makes a table well formed, and what a copy of rows is. */
module Tables {
  import opened Model
  import opened Forests

  /** The rows of a table and the next key it will hand out. */
  datatype Table = Table(rows: map<Id, Row>, next: Id)

  /** `rank` places every row strictly below its parent, and no row deeper than `bound`. */
  ghost predicate Ranked(rows: map<Id, Row>, rank: map<Id, nat>, bound: nat) {
    && rows.Keys <= rank.Keys
    && forall i | i in rows ::
      && rank[i] <= bound
      && (rows[i].parent.Some? ==> rows[i].parent.value in rank && rank[rows[i].parent.value] < rank[i])
  }

  ghost predicate Acyclic(rows: map<Id, Row>) {
    exists rank: map<Id, nat>, bound: nat :: Ranked(rows, rank, bound)
  }

  /** A row of `owner` may be stored under `parent`. */
  predicate ParentOk(rows: map<Id, Row>, owner: Id, parent: Option<Id>) {
    parent.Some? ==>
      && parent.value in rows
      && rows[parent.value].owner == owner
      && rows[parent.value].payload.Expandable()
  }

  predicate ParentOkAt(rows: map<Id, Row>, i: Id) {
    i in rows ==> ParentOk(rows, rows[i].owner, rows[i].parent)
  }

  ghost predicate ParentsOk(rows: map<Id, Row>) {
    forall i {:trigger ParentOkAt(rows, i)} | i in rows :: ParentOkAt(rows, i)
  }

  /** Keys are positive and below `next`, parents stay with their owner, and the parent relation is a forest. */
  ghost predicate TableOk(t: Table, owners: set<Id>) {
    && 0 < t.next
    && (forall i | i in t.rows :: 0 < i < t.next && t.rows[i].owner in owners)
    && ParentsOk(t.rows)
    && Acyclic(t.rows)
  }

  /** The ancestor `n` steps above row `i`. */
  function Above(rows: map<Id, Row>, i: Id, n: nat): Option<Id>
    decreases n
  {
    if n == 0 then Some(i)
    else if i in rows && rows[i].parent.Some? then Above(rows, rows[i].parent.value, n - 1)
    else None
  }

  lemma {:induction false} AboveRanks(rows: map<Id, Row>, rank: map<Id, nat>, bound: nat, i: Id, n: nat)
    requires Ranked(rows, rank, bound) && i in rows && ParentsOk(rows)
    ensures Above(rows, i, n).Some? ==>
              Above(rows, i, n).value in rows && rank[Above(rows, i, n).value] + n <= rank[i]
    decreases n
  {
    assert ParentOkAt(rows, i);
    if n != 0 && rows[i].parent.Some? {
      AboveRanks(rows, rank, bound, rows[i].parent.value, n - 1);
    }
  }

  /** In a well-formed table no row is its own proper ancestor, and every chain of ancestors ends. */
  lemma NoRowAboveItself(t: Table, owners: set<Id>, i: Id)
    requires TableOk(t, owners) && i in t.rows
    ensures forall n: nat | 0 < n :: Above(t.rows, i, n) != Some(i)
    ensures exists n: nat :: Above(t.rows, i, n) == None
  {
    var rank: map<Id, nat>, bound: nat :| Ranked(t.rows, rank, bound);
    forall n: nat
      ensures Above(t.rows, i, n).Some? ==> rank[i] >= n && (0 < n ==> Above(t.rows, i, n) != Some(i))
    {
      AboveRanks(t.rows, rank, bound, i, n);
    }
    assert Above(t.rows, i, rank[i] + 1) == None;
  }

  // ---- storing rows ----

  function Insert(t: Table, row: Row): Table {
    Table(t.rows[t.next := row], t.next + 1)
  }

  /** The table after storing a forest of payloads below `parent`, each parent row before its children. */
  function Put(t: Table, g: Forest<Payload>, owner: Id, parent: Option<Id>): Table
    decreases g
  {
    match g
    case Empty => t
    case Tree(p, kids, rest) =>
      var placed := Put(Insert(t, Row(owner, parent, p)), kids, owner, Some(t.next));
      Put(placed, rest, owner, parent)
  }

  /** Children occur only below expandable payloads. */
  predicate Pruned(g: Forest<Payload>) {
    match g
    case Empty => true
    case Tree(p, kids, rest) => (kids.Tree? ==> p.Expandable()) && Pruned(kids) && Pruned(rest)
  }

  lemma InsertKeepsOk(t: Table, row: Row, owners: set<Id>)
    requires TableOk(t, owners) && row.owner in owners && ParentOk(t.rows, row.owner, row.parent)
    ensures TableOk(Insert(t, row), owners)
    ensures t.rows.Keys !! {t.next}
  {
    var rank: map<Id, nat>, bound: nat :| Ranked(t.rows, rank, bound);
    var depth := if row.parent.Some? then rank[row.parent.value] + 1 else 0;
    var rank' := rank[t.next := depth];
    var rows' := Insert(t, row).rows;
    forall i | i in rows'
      ensures ParentOkAt(rows', i)
      ensures rows'[i].parent.Some? ==> rows'[i].parent.value in t.rows
    {
      assert ParentOkAt(t.rows, i);
    }
    assert Ranked(rows', rank', bound + 1);
  }

  /** Storing a pruned forest below a parent that may carry it keeps the table well formed. */
  lemma {:induction false} PutKeepsOk(t: Table, g: Forest<Payload>, owner: Id, parent: Option<Id>, owners: set<Id>)
    requires TableOk(t, owners) && owner in owners && ParentOk(t.rows, owner, parent) && Pruned(g)
    ensures TableOk(Put(t, g, owner, parent), owners)
    ensures t.next <= Put(t, g, owner, parent).next
    ensures forall i | i in t.rows ::
              i in Put(t, g, owner, parent).rows && Put(t, g, owner, parent).rows[i] == t.rows[i]
    ensures forall i | i in Put(t, g, owner, parent).rows && i !in t.rows ::
              t.next <= i && Put(t, g, owner, parent).rows[i].owner == owner
    decreases g
  {
    match g
    case Empty =>
    case Tree(p, kids, rest) =>
      var row := Row(owner, parent, p);
      InsertKeepsOk(t, row, owners);
      var t1 := Insert(t, row);
      if kids.Tree? {
        PutKeepsOk(t1, kids, owner, Some(t.next), owners);
      }
      PutKeepsOk(Put(t1, kids, owner, Some(t.next)), rest, owner, parent, owners);
  }

  // ---- deleting rows ----

  function DropOwners(t: Table, gone: set<Id>): Table {
    Table(map i | i in t.rows && t.rows[i].owner !in gone :: t.rows[i], t.next)
  }

  lemma DropKeepsOk(t: Table, owners: set<Id>, gone: set<Id>)
    requires TableOk(t, owners)
    ensures TableOk(DropOwners(t, gone), owners - gone)
  {
    var rank: map<Id, nat>, bound: nat :| Ranked(t.rows, rank, bound);
    var rows' := DropOwners(t, gone).rows;
    assert Ranked(rows', rank, bound);
    forall i | i in rows' ensures ParentOkAt(rows', i) {
      assert ParentOkAt(t.rows, i);
    }
  }

  // ---- copying rows ----

  function OwnedIds(t: Table, owners: set<Id>): set<Id> {
    set i | i in t.rows && t.rows[i].owner in owners
  }

  predicate InjectiveAt(m: map<Id, Id>, x: Id, y: Id) {
    x in m && y in m && m[x] == m[y] ==> x == y
  }

  ghost predicate Injective(m: map<Id, Id>) {
    forall x, y {:trigger InjectiveAt(m, x, y)} :: InjectiveAt(m, x, y)
  }

  predicate ParentMapped(p: Option<Id>, q: Option<Id>, m: map<Id, Id>) {
    if p.Some? then p.value in m && q == Some(m[p.value]) else q.None?
  }

  predicate Copied(r: Row, c: Row, owners: map<Id, Id>, m: map<Id, Id>) {
    && r.owner in owners
    && c.owner == owners[r.owner]
    && c.payload == r.payload
    && ParentMapped(r.parent, c.parent, m)
  }

  predicate CopiedAt(src: Table, owners: map<Id, Id>, after: Table, m: map<Id, Id>, x: Id) {
    x in m && x in src.rows && m[x] in after.rows && Copied(src.rows[x], after.rows[m[x]], owners, m)
  }

  ghost predicate AllCopied(src: Table, owners: map<Id, Id>, after: Table, m: map<Id, Id>) {
    forall x {:trigger CopiedAt(src, owners, after, m, x)} | x in m :: CopiedAt(src, owners, after, m, x)
  }

  /** `after` is `before` plus one fresh row per row of the `owners` in `src`; `m` renames rows, `owners` owners. */
  ghost predicate TableCopy(src: Table, owners: map<Id, Id>, before: Table, after: Table, m: map<Id, Id>) {
    && m.Keys == OwnedIds(src, owners.Keys)
    && Injective(m)
    && before.next <= after.next
    && (forall x | x in m :: before.next <= m[x] < after.next)
    && after.rows.Keys == before.rows.Keys + m.Values
    && (forall i | i in before.rows :: after.rows[i] == before.rows[i])
    && AllCopied(src, owners, after, m)
  }

  lemma SingletonValues(x: Id, y: Id)
    ensures (map[x := y]).Values == {y}
  {
    var m: map<Id, Id> := map[x := y];
    assert m[x] == y;
  }

  lemma MergedRenaming(m1: map<Id, Id>, m2: map<Id, Id>)
    requires m1.Keys !! m2.Keys && m1.Values !! m2.Values
    ensures (m1 + m2).Values == m1.Values + m2.Values
    ensures Injective(m1) && Injective(m2) ==> Injective(m1 + m2)
  {
    var m := m1 + m2;
    forall y | y in m1.Values + m2.Values ensures y in m.Values {
      var x :| x in m && m[x] == y;
    }
    forall x | x in m ensures if x in m1 then m[x] in m1.Values else m[x] in m2.Values {
    }
    if Injective(m1) && Injective(m2) {
      forall x, y ensures InjectiveAt(m, x, y) {
        assert InjectiveAt(m1, x, y) && InjectiveAt(m2, x, y);
      }
    }
  }

  lemma CopiedWidens(r: Row, c: Row, owners: map<Id, Id>, m: map<Id, Id>, owners': map<Id, Id>, m': map<Id, Id>)
    requires Copied(r, c, owners, m)
    requires forall o | o in owners :: o in owners' && owners'[o] == owners[o]
    requires forall x | x in m :: x in m' && m'[x] == m[x]
    ensures Copied(r, c, owners', m')
  {
  }

  lemma CopyRangesApart(src: Table, owners: map<Id, Id>, more: map<Id, Id>, t0: Table, t1: Table, t2: Table,
                        m1: map<Id, Id>, m2: map<Id, Id>)
    requires TableCopy(src, owners, t0, t1, m1) && TableCopy(src, more, t1, t2, m2)
    requires owners.Keys !! more.Keys
    ensures m1.Keys !! m2.Keys && m1.Values !! m2.Values
    ensures m1.Keys + m2.Keys == OwnedIds(src, owners.Keys + more.Keys)
  {
    forall y | y in m1.Values ensures y < t1.next {
      var x :| x in m1 && m1[x] == y;
    }
    forall y | y in m2.Values ensures t1.next <= y {
      var x :| x in m2 && m2[x] == y;
    }
  }

  lemma MergedCopied(src: Table, owners: map<Id, Id>, more: map<Id, Id>, t0: Table, t1: Table, t2: Table,
                     m1: map<Id, Id>, m2: map<Id, Id>)
    requires TableCopy(src, owners, t0, t1, m1) && TableCopy(src, more, t1, t2, m2)
    requires owners.Keys !! more.Keys && m1.Keys !! m2.Keys
    ensures AllCopied(src, owners + more, t2, m1 + m2)
  {
    forall x | x in m1 + m2
      ensures CopiedAt(src, owners + more, t2, m1 + m2, x)
    {
      if x in m1 {
        assert m1[x] in m1.Values;
        assert CopiedAt(src, owners, t1, m1, x);
        CopiedWidens(src.rows[x], t1.rows[m1[x]], owners, m1, owners + more, m1 + m2);
      } else {
        assert CopiedAt(src, more, t2, m2, x);
        CopiedWidens(src.rows[x], t2.rows[m2[x]], more, m2, owners + more, m1 + m2);
      }
    }
  }

  /** Copying the rows of further owners extends the copy. */
  lemma TableCopyExtends(src: Table, owners: map<Id, Id>, more: map<Id, Id>, t0: Table, t1: Table, t2: Table,
                         m1: map<Id, Id>, m2: map<Id, Id>)
    requires TableCopy(src, owners, t0, t1, m1) && TableCopy(src, more, t1, t2, m2)
    requires owners.Keys !! more.Keys
    ensures TableCopy(src, owners + more, t0, t2, m1 + m2)
  {
    CopyRangesApart(src, owners, more, t0, t1, t2, m1, m2);
    MergedRenaming(m1, m2);
    MergedCopied(src, owners, more, t0, t1, t2, m1, m2);
    assert (owners + more).Keys == owners.Keys + more.Keys;
  }

  lemma InverseExists(m: map<Id, Id>) returns (inv: map<Id, Id>)
    requires Injective(m)
    ensures inv.Keys == m.Values && inv.Values == m.Keys && Injective(inv)
    ensures forall x | x in m :: inv[m[x]] == x
    ensures forall y | y in inv :: inv[y] in m && m[inv[y]] == y
  {
    inv := map y | y in m.Values :: (var x :| x in m && m[x] == y; x);
    forall x | x in m
      ensures inv[m[x]] == x && x in inv.Values
    {
      assert m[x] in inv && m[inv[m[x]]] == m[x];
      assert InjectiveAt(m, inv[m[x]], x);
    }
    forall y, z ensures InjectiveAt(inv, y, z) {
      assert y in inv && z in inv ==> m[inv[y]] == y && m[inv[z]] == z;
    }
  }

  /** A copy of a well-formed table's rows into a well-formed table is well formed: ranks travel along the renaming. */
  lemma CopyKeepsOk(src: Table, srcOwners: set<Id>, owners: map<Id, Id>, before: Table, dstOwners: set<Id>,
                    after: Table, m: map<Id, Id>)
    requires TableOk(src, srcOwners) && TableOk(before, dstOwners)
    requires TableCopy(src, owners, before, after, m)
    ensures TableOk(after, dstOwners + owners.Values)
  {
    var inv := InverseExists(m);
    var rankS: map<Id, nat>, boundS: nat :| Ranked(src.rows, rankS, boundS);
    var rankB: map<Id, nat>, boundB: nat :| Ranked(before.rows, rankB, boundB);
    var rank := map i | i in after.rows :: if i in before.rows then rankB[i] else rankS[inv[i]];
    forall i | i in after.rows
      ensures rank[i] <= boundS + boundB
      ensures after.rows[i].parent.Some? ==>
                after.rows[i].parent.value in rank && rank[after.rows[i].parent.value] < rank[i]
      ensures 0 < i < after.next && after.rows[i].owner in dstOwners + owners.Values
      ensures ParentOkAt(after.rows, i)
    {
      if i in before.rows {
        assert ParentOkAt(before.rows, i);
      } else {
        var x := inv[i];
        assert CopiedAt(src, owners, after, m, x);
        assert ParentOkAt(src.rows, x);
        if src.rows[x].parent.Some? {
          assert CopiedAt(src, owners, after, m, src.rows[x].parent.value);
        }
      }
    }
    assert Ranked(after.rows, rank, boundS + boundB);
  }
}
